// The guard analyses guarantee as much as can be guaranteed, and an issue they report is a real failure.
module GuardsTight {
  import opened Basics
  import opened Model
  import opened Content
  import opened Effects
  import opened Availability
  import opened Validation
  import opened Guards
  import opened PreflightPaths
  import OfferedExactly
  import StockBounds
  import Text

  // ---- What a condition asks of the carried stock ----

  /**
   * The condition, with everything but carried items taken for granted: other atoms, negations, an empty choice, and
   * whatever lies below the depth limit.
   */
  predicate Allows(condition: Condition, inventory: Inventory, depth: nat)
    decreases condition
  {
    depth > MAX_AST_DEPTH ||
    match condition
    case HasItem(item, count) => item in inventory && inventory[item] >= count
    case All(conditions) => forall x <- conditions :: Allows(x, inventory, depth + 1)
    case Any(conditions) => conditions == [] || exists x <- conditions :: Allows(x, inventory, depth + 1)
    case _ => true
  }

  /** A state in which the condition holds carries an inventory it allows. */
  lemma {:induction false} HoldsAllows(condition: Condition, s: GameState, depth: nat)
    requires condition.Holds(s)
    ensures Allows(condition, s.character.inventory, depth)
    decreases condition
  {
    match condition
    case All(conditions) =>
      forall x | x in conditions ensures Allows(x, s.character.inventory, depth + 1) {
        HoldsAllows(x, s, depth + 1);
      }
    case Any(conditions) =>
      var x :| x in conditions && x.Holds(s);
      HoldsAllows(x, s, depth + 1);
    case _ =>
  }

  /** Item conditions alone, within the depth limit. */
  predicate ItemsOnly(condition: Condition, depth: nat)
    decreases condition
  {
    depth <= MAX_AST_DEPTH &&
    match condition
    case HasItem(_, _) => true
    case All(conditions) => forall x <- conditions :: ItemsOnly(x, depth + 1)
    case Any(conditions) => conditions != [] && forall x <- conditions :: ItemsOnly(x, depth + 1)
    case _ => false
  }

  /** For them nothing is taken for granted. */
  lemma {:induction false} AllowsHolds(condition: Condition, s: GameState, depth: nat)
    requires ItemsOnly(condition, depth)
    ensures Allows(condition, s.character.inventory, depth) <==> condition.Holds(s)
    decreases condition
  {
    match condition
    case All(conditions) =>
      forall x | x in conditions ensures Allows(x, s.character.inventory, depth + 1) <==> x.Holds(s) {
        AllowsHolds(x, s, depth + 1);
      }
    case Any(conditions) =>
      forall x | x in conditions ensures Allows(x, s.character.inventory, depth + 1) <==> x.Holds(s) {
        AllowsHolds(x, s, depth + 1);
      }
    case _ =>
  }

  predicate Within(a: Inventory, b: Inventory) {
    forall item <- a :: item in b && a[item] <= b[item]
  }

  lemma {:induction false} MoreIsAllowed(condition: Condition, a: Inventory, b: Inventory, depth: nat)
    requires Allows(condition, a, depth) && Within(a, b)
    ensures Allows(condition, b, depth)
    decreases condition
  {
    if depth <= MAX_AST_DEPTH {
      match condition
      case All(conditions) =>
        forall x | x in conditions ensures Allows(x, b, depth + 1) {
          MoreIsAllowed(x, a, b, depth + 1);
        }
      case Any(conditions) =>
        if conditions != [] {
          var x :| x in conditions && Allows(x, a, depth + 1);
          MoreIsAllowed(x, a, b, depth + 1);
        }
      case _ =>
    }
  }

  lemma StrongestCounts(a: Inventory, b: Inventory, item: Id)
    ensures Count(Strongest(a, b), item) == Max(Count(a, item), Count(b, item))
    ensures Within(a, Strongest(a, b)) && Within(b, Strongest(a, b))
  {
  }

  lemma WeakestCounts(a: Inventory, b: Inventory, item: Id)
    ensures Count(Weakest(a, b), item) == Min(Count(a, item), Count(b, item))
  {
  }

  // ---- The stock guarantee is the strongest ----

  /** Every allowed inventory covers the guarantee. */
  lemma {:induction false} AllowedCovers(condition: Condition, inventory: Inventory, depth: nat, item: Id)
    requires Allows(condition, inventory, depth)
    ensures Count(GuaranteedStock(condition, depth), item) <= Count(inventory, item)
    decreases condition
  {
    if depth <= MAX_AST_DEPTH {
      match condition
      case All(conditions) => AllAllowedCovers(conditions, inventory, depth, item);
      case Any(conditions) =>
        if conditions != [] {
          var x :| x in conditions && Allows(x, inventory, depth + 1);
          AnyAllowedCovers(conditions, x, inventory, depth, item);
        }
      case _ =>
    }
  }

  lemma {:induction false} AllAllowedCovers(conditions: seq<Condition>, inventory: Inventory, depth: nat, item: Id)
    requires forall x <- conditions :: Allows(x, inventory, depth + 1)
    ensures Count(AllStock(conditions, depth), item) <= Count(inventory, item)
    decreases conditions
  {
    if conditions != [] {
      var front, last := conditions[..|conditions| - 1], conditions[|conditions| - 1];
      assert conditions == front + [last] && last in conditions && forall x <- front :: x in conditions;
      AllAllowedCovers(front, inventory, depth, item);
      AllowedCovers(last, inventory, depth + 1, item);
      StrongestCounts(AllStock(front, depth), GuaranteedStock(last, depth + 1), item);
    }
  }

  lemma {:induction false} AnyAllowedCovers(
    conditions: seq<Condition>, x: Condition, inventory: Inventory, depth: nat, item: Id)
    requires x in conditions && Allows(x, inventory, depth + 1)
    ensures Count(AnyStock(conditions, depth), item) <= Count(inventory, item)
    decreases conditions
  {
    var front, last := conditions[..|conditions| - 1], conditions[|conditions| - 1];
    assert conditions == front + [last];
    if |conditions| > 1 {
      WeakestCounts(AnyStock(front, depth), GuaranteedStock(last, depth + 1), item);
    }
    if x == last {
      AllowedCovers(last, inventory, depth + 1, item);
    } else {
      AnyAllowedCovers(front, x, inventory, depth, item);
    }
  }

  /** Of any one item, some allowed inventory holds no more than is guaranteed. */
  lemma {:induction false} BarelyAllowed(condition: Condition, depth: nat, item: Id) returns (inventory: Inventory)
    ensures Allows(condition, inventory, depth)
    ensures Count(inventory, item) == Count(GuaranteedStock(condition, depth), item)
    decreases condition
  {
    inventory := map[];
    if depth <= MAX_AST_DEPTH {
      match condition
      case HasItem(needed, count) => inventory := map[needed := count];
      case All(conditions) => inventory := AllBarelyAllowed(conditions, depth, item);
      case Any(conditions) =>
        if conditions != [] {
          var x;
          x, inventory := AnyBarelyAllowed(conditions, depth, item);
        }
      case _ =>
    }
  }

  lemma {:induction false} AllBarelyAllowed(conditions: seq<Condition>, depth: nat, item: Id) returns (inventory: Inventory)
    ensures forall x <- conditions :: Allows(x, inventory, depth + 1)
    ensures Count(inventory, item) == Count(AllStock(conditions, depth), item)
    decreases conditions
  {
    inventory := map[];
    if conditions != [] {
      var front, last := conditions[..|conditions| - 1], conditions[|conditions| - 1];
      var earlier := AllBarelyAllowed(front, depth, item);
      var more := BarelyAllowed(last, depth + 1, item);
      inventory := Strongest(earlier, more);
      StrongestCounts(earlier, more, item);
      StrongestCounts(AllStock(front, depth), GuaranteedStock(last, depth + 1), item);
      forall x | x in conditions ensures Allows(x, inventory, depth + 1) {
        assert conditions == front + [last];
        MoreIsAllowed(x, if x in front then earlier else more, inventory, depth + 1);
      }
    }
  }

  lemma {:induction false} AnyBarelyAllowed(conditions: seq<Condition>, depth: nat, item: Id)
    returns (x: Condition, inventory: Inventory)
    requires conditions != []
    ensures x in conditions && Allows(x, inventory, depth + 1)
    ensures Count(inventory, item) == Count(AnyStock(conditions, depth), item)
    decreases conditions
  {
    var front, last := conditions[..|conditions| - 1], conditions[|conditions| - 1];
    x := last;
    inventory := BarelyAllowed(last, depth + 1, item);
    if |conditions| > 1 {
      WeakestCounts(AnyStock(front, depth), GuaranteedStock(last, depth + 1), item);
      var other, less := AnyBarelyAllowed(front, depth, item);
      if Count(less, item) < Count(inventory, item) {
        x, inventory := other, less;
      }
    }
  }

  /** The guarantee of a condition is the largest number every inventory it allows holds. */
  lemma StockIsStrongest(condition: Condition, depth: nat, item: Id, n: nat)
    ensures n <= Count(GuaranteedStock(condition, depth), item) <==>
      forall inventory: Inventory :: Allows(condition, inventory, depth) ==> n <= Count(inventory, item)
  {
    forall inventory: Inventory | Allows(condition, inventory, depth)
      ensures Count(GuaranteedStock(condition, depth), item) <= Count(inventory, item)
    {
      AllowedCovers(condition, inventory, depth, item);
    }
    var barely := BarelyAllowed(condition, depth, item);
  }

  // ---- The knowledge guarantee is the strongest ----

  /** The condition, with everything but NPC knowledge taken for granted. */
  predicate AllowsFacts(condition: Condition, facts: set<Fact>, depth: nat)
    decreases condition
  {
    depth > MAX_AST_DEPTH ||
    match condition
    case NpcKnows(npc, knowledge) => (npc, knowledge) in facts
    case NpcKnowsWithProvenance(npc, knowledge, _) => (npc, knowledge) in facts
    case All(conditions) => forall x <- conditions :: AllowsFacts(x, facts, depth + 1)
    case Any(conditions) => conditions == [] || exists x <- conditions :: AllowsFacts(x, facts, depth + 1)
    case _ => true
  }

  lemma {:induction false} MoreFactsAllowed(condition: Condition, a: set<Fact>, b: set<Fact>, depth: nat)
    requires AllowsFacts(condition, a, depth) && a <= b
    ensures AllowsFacts(condition, b, depth)
    decreases condition
  {
    if depth <= MAX_AST_DEPTH {
      match condition
      case All(conditions) =>
        forall x | x in conditions ensures AllowsFacts(x, b, depth + 1) {
          MoreFactsAllowed(x, a, b, depth + 1);
        }
      case Any(conditions) =>
        if conditions != [] {
          var x :| x in conditions && AllowsFacts(x, a, depth + 1);
          MoreFactsAllowed(x, a, b, depth + 1);
        }
      case _ =>
    }
  }

  lemma {:induction false} FactsCovered(condition: Condition, facts: set<Fact>, depth: nat)
    requires AllowsFacts(condition, facts, depth)
    ensures GuaranteedKnowledge(condition, depth) <= facts
    decreases condition
  {
    if depth <= MAX_AST_DEPTH {
      match condition
      case All(conditions) => AllFactsCovered(conditions, facts, depth);
      case Any(conditions) =>
        if conditions != [] {
          var x :| x in conditions && AllowsFacts(x, facts, depth + 1);
          AnyFactsCovered(conditions, x, facts, depth);
        }
      case _ =>
    }
  }

  lemma {:induction false} AllFactsCovered(conditions: seq<Condition>, facts: set<Fact>, depth: nat)
    requires forall x <- conditions :: AllowsFacts(x, facts, depth + 1)
    ensures AllKnowledge(conditions, depth) <= facts
    decreases conditions
  {
    if conditions != [] {
      var front, last := conditions[..|conditions| - 1], conditions[|conditions| - 1];
      assert conditions == front + [last] && last in conditions && forall x <- front :: x in conditions;
      AllFactsCovered(front, facts, depth);
      FactsCovered(last, facts, depth + 1);
    }
  }

  lemma {:induction false} AnyFactsCovered(conditions: seq<Condition>, x: Condition, facts: set<Fact>, depth: nat)
    requires x in conditions && AllowsFacts(x, facts, depth + 1)
    ensures AnyKnowledge(conditions, depth) <= facts
    decreases conditions
  {
    var front, last := conditions[..|conditions| - 1], conditions[|conditions| - 1];
    assert conditions == front + [last];
    if x == last {
      FactsCovered(last, facts, depth + 1);
    } else {
      AnyFactsCovered(front, x, facts, depth);
    }
  }

  /** A fact that is not guaranteed is missing from some allowed set. */
  lemma {:induction false} WithoutFact(condition: Condition, depth: nat, fact: Fact) returns (facts: set<Fact>)
    requires fact !in GuaranteedKnowledge(condition, depth)
    ensures AllowsFacts(condition, facts, depth) && fact !in facts
    decreases condition
  {
    facts := {};
    if depth <= MAX_AST_DEPTH {
      match condition
      case NpcKnows(npc, knowledge) => facts := {(npc, knowledge)};
      case NpcKnowsWithProvenance(npc, knowledge, _) => facts := {(npc, knowledge)};
      case All(conditions) => facts := AllWithoutFact(conditions, depth, fact);
      case Any(conditions) =>
        if conditions != [] {
          var x;
          x, facts := AnyWithoutFact(conditions, depth, fact);
        }
      case _ =>
    }
  }

  lemma {:induction false} AllWithoutFact(conditions: seq<Condition>, depth: nat, fact: Fact) returns (facts: set<Fact>)
    requires fact !in AllKnowledge(conditions, depth)
    ensures (forall x <- conditions :: AllowsFacts(x, facts, depth + 1)) && fact !in facts
    decreases conditions
  {
    facts := {};
    if conditions != [] {
      var front, last := conditions[..|conditions| - 1], conditions[|conditions| - 1];
      var earlier := AllWithoutFact(front, depth, fact);
      var more := WithoutFact(last, depth + 1, fact);
      facts := earlier + more;
      forall x | x in conditions ensures AllowsFacts(x, facts, depth + 1) {
        assert conditions == front + [last];
        MoreFactsAllowed(x, if x in front then earlier else more, facts, depth + 1);
      }
    }
  }

  lemma {:induction false} AnyWithoutFact(conditions: seq<Condition>, depth: nat, fact: Fact)
    returns (x: Condition, facts: set<Fact>)
    requires conditions != [] && fact !in AnyKnowledge(conditions, depth)
    ensures x in conditions && AllowsFacts(x, facts, depth + 1) && fact !in facts
    decreases conditions
  {
    var front, last := conditions[..|conditions| - 1], conditions[|conditions| - 1];
    if |conditions| == 1 || fact !in GuaranteedKnowledge(last, depth + 1) {
      x := last;
      facts := WithoutFact(last, depth + 1, fact);
    } else {
      x, facts := AnyWithoutFact(front, depth, fact);
    }
  }

  /** A fact is guaranteed exactly when every set of facts the condition allows contains it. */
  lemma KnowledgeIsStrongest(condition: Condition, depth: nat, fact: Fact)
    ensures fact in GuaranteedKnowledge(condition, depth) <==>
      forall facts: set<Fact> :: AllowsFacts(condition, facts, depth) ==> fact in facts
  {
    forall facts: set<Fact> | AllowsFacts(condition, facts, depth) ensures GuaranteedKnowledge(condition, depth) <= facts {
      FactsCovered(condition, facts, depth);
    }
    if fact !in GuaranteedKnowledge(condition, depth) {
      var facts := WithoutFact(condition, depth, fact);
    }
  }

  /** A state in which the condition holds has a set of known facts it allows. */
  lemma {:induction false} HoldsAllowsFacts(condition: Condition, s: GameState, facts: set<Fact>, depth: nat)
    requires condition.Holds(s) && forall fact: Fact :: Possesses(s.world, fact) ==> fact in facts
    ensures AllowsFacts(condition, facts, depth)
    decreases condition
  {
    match condition
    case All(conditions) =>
      forall x | x in conditions ensures AllowsFacts(x, facts, depth + 1) {
        HoldsAllowsFacts(x, s, facts, depth + 1);
      }
    case Any(conditions) =>
      var x :| x in conditions && x.Holds(s);
      HoldsAllowsFacts(x, s, facts, depth + 1);
    case NpcKnows(npc, knowledge) => assert Possesses(s.world, (npc, knowledge));
    case NpcKnowsWithProvenance(npc, knowledge, _) => assert Possesses(s.world, (npc, knowledge));
    case _ =>
  }

  // ---- An issue with a program is a real failure ----

  /** The effect stays within the depth limit on every branch. */
  predicate Shallow(e: Effect, depth: nat)
    decreases e
  {
    depth <= MAX_AST_DEPTH && (e.RandomChance? ==> Shallow(e.onSuccess, depth + 1) && Shallow(e.onFailure, depth + 1))
  }

  predicate HoldsJust(p: GameState, g: Inventory, item: Id) {
    Count(p.character.inventory, item) == Count(g, item)
  }

  predicate BarelyHeld(g: Inventory, paths: set<GameState>, item: Id) {
    exists p <- paths :: HoldsJust(p, g, item)
  }

  /** Of every item, some explored path holds no more than is guaranteed. */
  ghost predicate StockBarely(g: Inventory, paths: set<GameState>) {
    forall item: Id :: BarelyHeld(g, paths, item)
  }

  /** The analysis reads the recipes that the compiled content has. */
  ghost predicate SameRecipes(recipes: seq<RecipeDefinition>, c: Compiled) {
    forall id: Id :: FindRecipe(recipes, id) == if id in c.recipes then Some(c.recipes[id]) else None
  }

  lemma CraftGuaranteeCounts(g: Inventory, r: RecipeDefinition, item: Id)
    requires CraftGuarantee(g, r).Some?
    ensures Count(CraftGuarantee(g, r).value, item) == Count(g, item) - Count(r.inputs, item) + Count(r.outputs, item)
  {
  }

  /** A recipe that fires on every path fits the guarantee. */
  lemma CraftFitsGuarantee(c: Compiled, g: Inventory, paths: set<GameState>, recipe: Id)
    requires StockBarely(g, paths) && recipe in c.recipes && forall p <- paths :: Craft(c, Start(p), recipe).Ok?
    ensures CraftGuarantee(g, c.recipes[recipe]).Some?
  {
    hide Craft, Count;
    var r := c.recipes[recipe];
    forall item: Id
      ensures Count(r.inputs, item) <= Count(g, item)
      ensures Count(g, item) - Count(r.inputs, item) + Count(r.outputs, item) <= U32_MAX
    {
      assert BarelyHeld(g, paths, item);
      var p :| p in paths && HoldsJust(p, g, item);
      OfferedExactly.CraftNeeds(c, Start(p), recipe, item);
    }
    CountsFit(g, r);
  }

  lemma CountsFit(g: Inventory, r: RecipeDefinition)
    requires forall item: Id :: Count(r.inputs, item) <= Count(g, item)
    requires forall item: Id :: Count(g, item) - Count(r.inputs, item) + Count(r.outputs, item) <= U32_MAX
    ensures HasInputs(g, r.inputs) && HasRoom(g, r.inputs, r.outputs)
  {
    forall item | item in r.inputs ensures r.inputs[item] <= Count(g, item) {
      assert Count(r.inputs, item) <= Count(g, item);
    }
    forall item | item in r.outputs ensures Count(g, item) - Count(r.inputs, item) + r.outputs[item] <= U32_MAX {
      assert Count(r.outputs, item) == r.outputs[item];
    }
  }

  lemma QuietTakes(c: Compiled, e: Effect, item: Id)
    requires Quiet(e) && !e.RandomChance?
    ensures OfferedExactly.Taken(c, map[], e, OfCharacter, item)
         == if e.ApplyRecipe? && e.recipe in c.recipes then Count(c.recipes[e.recipe].inputs, item) else 0
    ensures OfferedExactly.Added(c, map[], e, OfCharacter, item)
         == if e.ApplyRecipe? && e.recipe in c.recipes then Count(c.recipes[e.recipe].outputs, item) else 0
  {
  }

  /** What an effect does to a path's stock, it does to the guarantee. */
  lemma PlainJust(recipes: seq<RecipeDefinition>, c: Compiled, e: Effect, g: Inventory, p: GameState, depth: nat, item: Id)
    requires Quiet(e) && !e.RandomChance? && depth <= MAX_AST_DEPTH && SameRecipes(recipes, c)
    requires ApplyPlain(c, map[], e, Start(p)).Ok? && StockAfter(recipes, e, g, depth).Some? && HoldsJust(p, g, item)
    ensures HoldsJust(ApplyPlain(c, map[], e, Start(p)).value.state, StockAfter(recipes, e, g, depth).value, item)
  {
    hide ApplyPlain, Count, CraftGuarantee;
    OfferedExactly.PlainShifts(c, map[], e, Start(p), OfCharacter, item);
    QuietTakes(c, e, item);
    if e.ApplyRecipe? && e.recipe in c.recipes {
      CraftGuaranteeCounts(g, c.recipes[e.recipe], item);
    }
  }

  lemma PlainBarely(
    recipes: seq<RecipeDefinition>, c: Compiled, e: Effect, g: Inventory, paths: set<GameState>, depth: nat)
    requires Quiet(e) && !e.RandomChance? && depth <= MAX_AST_DEPTH && SameRecipes(recipes, c)
    requires StockBarely(g, paths) && AllPathsAfter(c, map[], e, paths).Some?
    ensures StockAfter(recipes, e, g, depth).Some?
    ensures StockBarely(StockAfter(recipes, e, g, depth).value, AllPathsAfter(c, map[], e, paths).value)
  {
    hide ApplyPlain, AllPathsAfter, HoldsJust, CraftGuarantee;
    OfferedExactly.PlainPaths(c, map[], e, paths);
    var next := AllPathsAfter(c, map[], e, paths).value;
    if e.ApplyRecipe? && e.recipe in c.recipes {
      CraftRuns(c, e.recipe, paths);
      CraftFitsGuarantee(c, g, paths, e.recipe);
    }
    var after := StockAfter(recipes, e, g, depth).value;
    forall item: Id ensures BarelyHeld(after, next, item) {
      assert BarelyHeld(g, paths, item);
      var p :| p in paths && HoldsJust(p, g, item);
      PlainJust(recipes, c, e, g, p, depth, item);
      assert ApplyPlain(c, map[], e, Start(p)).value.state in next;
    }
  }

  lemma CraftRuns(c: Compiled, recipe: Id, paths: set<GameState>)
    requires OfferedExactly.RunsOnAll(c, map[], ApplyRecipe(recipe), paths)
    ensures forall p <- paths :: Craft(c, Start(p), recipe).Ok?
  {
  }

  lemma SpentBarely(g: Inventory, paths: set<GameState>)
    requires StockBarely(g, paths) && forall p <- paths :: p.entropy.cursor < MAX_ENTROPY_CURSOR
    ensures StockBarely(g, OfferedExactly.SpentAll(paths))
  {
    hide Count;
    var spent := OfferedExactly.SpentAll(paths);
    forall item: Id ensures BarelyHeld(g, spent, item) {
      assert BarelyHeld(g, paths, item);
      var p :| p in paths && HoldsJust(p, g, item);
      assert Spent(p) in spent && HoldsJust(Spent(p), g, item);
    }
  }

  lemma WeakestBarely(a: Inventory, b: Inventory, p: set<GameState>, q: set<GameState>)
    requires StockBarely(a, p) && StockBarely(b, q)
    ensures StockBarely(Weakest(a, b), p + q)
  {
    hide Count, Weakest;
    forall item: Id ensures BarelyHeld(Weakest(a, b), p + q, item) {
      WeakestCounts(a, b, item);
      assert BarelyHeld(a, p, item) && BarelyHeld(b, q, item);
      var x :| x in p && HoldsJust(x, a, item);
      var y :| y in q && HoldsJust(y, b, item);
      assert HoldsJust(if Count(a, item) <= Count(b, item) then x else y, Weakest(a, b), item);
    }
  }

  /** An effect that fails on no path is given no issue, and its guarantee is what some path barely holds. */
  lemma {:induction false} EffectBarely(
    recipes: seq<RecipeDefinition>, c: Compiled, e: Effect, g: Inventory, paths: set<GameState>, depth: nat)
    requires Quiet(e) && Shallow(e, depth) && SameRecipes(recipes, c)
    requires StockBarely(g, paths) && AllPathsAfter(c, map[], e, paths).Some?
    ensures StockAfter(recipes, e, g, depth).Some?
    ensures StockBarely(StockAfter(recipes, e, g, depth).value, AllPathsAfter(c, map[], e, paths).value)
    decreases e
  {
    hide StockBarely, AllPathsAfter, OfferedExactly.SpentAll, SameRecipes, Weakest;
    if e.RandomChance? {
      OfferedExactly.ChancePaths(c, map[], e, paths);
      SpentBarely(g, paths);
      var spent := OfferedExactly.SpentAll(paths);
      if e.percent != 0 {
        EffectBarely(recipes, c, e.onSuccess, g, spent, depth + 1);
      }
      if e.percent != 100 {
        EffectBarely(recipes, c, e.onFailure, g, spent, depth + 1);
      }
      if e.percent != 0 && e.percent != 100 {
        WeakestBarely(StockAfter(recipes, e.onSuccess, g, depth + 1).value,
                      StockAfter(recipes, e.onFailure, g, depth + 1).value,
                      AllPathsAfter(c, map[], e.onSuccess, spent).value,
                      AllPathsAfter(c, map[], e.onFailure, spent).value);
      }
    } else {
      PlainBarely(recipes, c, e, g, paths, depth);
    }
  }

  lemma {:induction false} EffectsBarely(
    recipes: seq<RecipeDefinition>, c: Compiled, effects: seq<Effect>, g: Inventory, paths: set<GameState>)
    requires (forall e <- effects :: Quiet(e) && Shallow(e, 0)) && SameRecipes(recipes, c)
    requires StockBarely(g, paths) && PathsAfterAll(c, map[], effects, paths).Some?
    ensures StockAfterList(recipes, effects, g, 0).Some?
    decreases |effects|
  {
    hide StockBarely, AllPathsAfter, SameRecipes, StockAfter;
    if effects != [] {
      EffectBarely(recipes, c, effects[0], g, paths, 0);
      EffectsBarely(recipes, c, effects[1..], StockAfter(recipes, effects[0], g, 0).value,
                    AllPathsAfter(c, map[], effects[0], paths).value);
    }
  }

  lemma {:induction false} CheckedIsShallow(npcs: set<Id>, e: Effect, depth: nat, allowTransfers: bool)
    requires EffectChecked(npcs, e, depth, allowTransfers) && depth <= MAX_AST_DEPTH
    ensures Shallow(e, depth)
    decreases e
  {
    if e.RandomChance? {
      CheckedIsShallow(npcs, e.onSuccess, depth + 1, allowTransfers);
      CheckedIsShallow(npcs, e.onFailure, depth + 1, allowTransfers);
    }
  }

  lemma CompiledRecipes(d: Draft)
    requires DistinctIds(d.recipes, RecipeKey)
    ensures SameRecipes(d.recipes, Compile(d))
  {
    TableEntries(d.recipes, RecipeKey);
    forall id: Id
      ensures FindRecipe(d.recipes, id) == if id in Compile(d).recipes then Some(Compile(d).recipes[id]) else None
    {
      if id in Compile(d).recipes {
        FindRecipeDistinct(d.recipes, Compile(d).recipes[id]);
      } else {
        NoRecipe(d.recipes, id);
      }
    }
  }

  lemma {:induction false} NoRecipe(recipes: seq<RecipeDefinition>, id: Id)
    requires forall r <- recipes :: r.id != id
    ensures FindRecipe(recipes, id).None?
    decreases |recipes|
  {
    if recipes != [] {
      NoRecipe(recipes[1..], id);
    }
  }

  /** A template's program, as the analysis and the exploration need it. */
  lemma TemplateProgram(d: Draft, event: DeferredEvent)
    requires StructureValid(d) && event in d.deferredEvents
    ensures forall e <- event.effects :: Quiet(e) && Shallow(e, 0) && FairChances(e)
    ensures SameRecipes(d.recipes, Compile(d))
  {
    hide StorageChecked, ScheduleChecked, RecipeChecked, NamespacedId;
    forall e | e in event.effects ensures Quiet(e) && Shallow(e, 0) && FairChances(e) {
      CheckedIsQuiet(d, e, 0);
      CheckedIsShallow(NpcIds(d), e, 0, false);
      StockBounds.CheckedIsFair(NpcIds(d), e, 0, false);
    }
    CompiledRecipes(d);
  }

  /** An issue with a template's stock is real: from any state that holds just the guarantee, some draws make it fail. */
  lemma StockIssueIsReal(d: Draft, event: DeferredEvent, g: Inventory, s: GameState) returns (chosen: Stream)
    requires StructureValid(d) && event in d.deferredEvents && s.entropy.algorithm == ENTROPY_ALGORITHM
    requires SameCounts(s.character.inventory, g) && StockAfterList(d.recipes, event.effects, g, 0).None?
    ensures ApplyEffects(Compile(d), chosen, map[], event.effects, Start(s)).Err?
  {
    hide StructureValid, ApplyEffects, StockAfterList, SameRecipes, Compile, FairChances, Shallow, Quiet;
    var c := Compile(d);
    TemplateProgram(d, event);
    assert Shadow(Start(s)) == s;
    forall item: Id ensures BarelyHeld(g, {s}, item) {
      assert s in {s} && HoldsJust(s, g, item);
    }
    if PathsAfterAll(c, map[], event.effects, {s}).Some? {
      EffectsBarely(d.recipes, c, event.effects, g, {s});
    }
    StartIsReady(event.effects, s);
    chosen := ProgramStream(c, (seed, cursor) => 0, map[], event.effects, Start(s), None);
  }

  lemma StartIsReady(effects: seq<Effect>, s: GameState)
    requires s.entropy.algorithm == ENTROPY_ALGORITHM && forall e <- effects :: FairChances(e)
    ensures ReadyAll(effects, Start(s))
  {
  }

  // ---- The same for knowledge ----

  /** Every NPC to be taught is named outright, with text in every name. */
  predicate NamesPupils(e: Effect)
    decreases e
  {
    match e
    case TeachNpc(npc, knowledge, _, _) => npc.Literal? && !Text.Blank(npc.value) && !Text.Blank(knowledge)
    case RandomChance(_, onSuccess, onFailure) => NamesPupils(onSuccess) && NamesPupils(onFailure)
    case _ => true
  }

  predicate Lacks(paths: set<GameState>, fact: Fact) {
    exists p <- paths :: !Possesses(p.world, fact)
  }

  /** What is not guaranteed is unknown on some explored path. */
  ghost predicate FactsBarely(facts: set<Fact>, paths: set<GameState>) {
    paths != {} && forall fact: Fact :: fact !in facts ==> Lacks(paths, fact)
  }

  predicate SameKnowledge(w: World, v: World) {
    v.npcs.Keys == w.npcs.Keys && forall npc <- w.npcs :: v.npcs[npc].knowledge == w.npcs[npc].knowledge
  }

  lemma StockKeepsKnowledge(c: Compiled, parameters: Parameters, e: Effect, m: Machine)
    requires e.TransferNpcItemToCharacter? || e.TransferStorageItemToCharacter? || e.TransferCharacterItemToStorage?
    requires ApplyPlain(c, parameters, e, m).Ok?
    ensures SameKnowledge(m.state.world, ApplyPlain(c, parameters, e, m).value.state.world)
  {
    hide SetCount, Count;
  }

  lemma UpdateKeepsKnowledge(w: World, v: World, npc: Id, updated: NpcState)
    requires npc in w.npcs && v.npcs == w.npcs && updated.knowledge == w.npcs[npc].knowledge
    ensures SameKnowledge(w, WithNpc(v, npc, updated))
  {
  }

  lemma MovingKeepsKnowledge(c: Compiled, m: Machine, npc: Id, place: Id)
    requires RelocateNpc(c, m, npc, place).Ok?
    ensures SameKnowledge(m.state.world, RelocateNpc(c, m, npc, place).value.state.world)
  {
    var w := m.state.world;
    var origin := w.npcs[npc].location;
    if origin != place {
      var left := WithPlace(w, origin, w.locations[origin].(entities := w.locations[origin].entities - {npc}));
      var entered := WithPlace(left, place, w.locations[place].(entities := w.locations[place].entities + {npc}));
      UpdateKeepsKnowledge(w, entered, npc, w.npcs[npc].(location := place));
      hide SameKnowledge, WithNpc, WithPlace;
    }
  }

  lemma PeopleKeepKnowledge(c: Compiled, parameters: Parameters, e: Effect, m: Machine)
    requires e.MoveNpc? || e.AddNpcMemory? || e.AdjustNpcRelationship?
    requires ApplyPlain(c, parameters, e, m).Ok?
    ensures SameKnowledge(m.state.world, ApplyPlain(c, parameters, e, m).value.state.world)
  {
    hide SameKnowledge, RelocateNpc, WithNpc;
    var w := m.state.world;
    match e
    case MoveNpc(npc, place) => MovingKeepsKnowledge(c, m, Resolve(npc, parameters).value, Resolve(place, parameters).value);
    case AddNpcMemory(reference, memory, subject, provenance) =>
      var npc := Resolve(reference, parameters).value;
      UpdateKeepsKnowledge(
        w, w, npc, w.npcs[npc].(memories := w.npcs[npc].memories[memory := Record(subject, w.time, provenance)]));
    case AdjustNpcRelationship(reference, amount) =>
      var npc := Resolve(reference, parameters).value;
      UpdateKeepsKnowledge(w, w, npc, w.npcs[npc].(relationship := w.npcs[npc].relationship + amount));
  }

  lemma OthersKeepKnowledge(c: Compiled, parameters: Parameters, e: Effect, m: Machine)
    requires !e.RandomChance? && !e.TeachNpc? && !e.MoveNpc? && !e.AddNpcMemory? && !e.AdjustNpcRelationship?
    requires !e.TransferNpcItemToCharacter? && !e.TransferStorageItemToCharacter? && !e.TransferCharacterItemToStorage?
    requires ApplyPlain(c, parameters, e, m).Ok?
    ensures SameKnowledge(m.state.world, ApplyPlain(c, parameters, e, m).value.state.world)
  {
    hide HasInputs, HasRoom, AfterRecipe, AlreadyUsed, Enqueue, Toggle;
  }

  lemma TeachesOnly(c: Compiled, parameters: Parameters, e: Effect, m: Machine, fact: Fact)
    requires e.TeachNpc? && NamesPupils(e) && ApplyPlain(c, parameters, e, m).Ok?
    requires !Possesses(m.state.world, fact) && fact !in Taught(e.npc, e.knowledge)
    ensures !Possesses(ApplyPlain(c, parameters, e, m).value.state.world, fact)
  {
  }

  lemma PlainTeachesOnly(c: Compiled, parameters: Parameters, e: Effect, m: Machine, fact: Fact)
    requires !e.RandomChance? && NamesPupils(e) && ApplyPlain(c, parameters, e, m).Ok?
    requires !Possesses(m.state.world, fact) && (e.TeachNpc? ==> fact !in Taught(e.npc, e.knowledge))
    ensures !Possesses(ApplyPlain(c, parameters, e, m).value.state.world, fact)
  {
    hide ApplyPlain;
    if e.TeachNpc? {
      TeachesOnly(c, parameters, e, m, fact);
    } else if e.MoveNpc? || e.AddNpcMemory? || e.AdjustNpcRelationship? {
      PeopleKeepKnowledge(c, parameters, e, m);
    } else if e.TransferNpcItemToCharacter? || e.TransferStorageItemToCharacter? || e.TransferCharacterItemToStorage? {
      StockKeepsKnowledge(c, parameters, e, m);
    } else {
      OthersKeepKnowledge(c, parameters, e, m);
    }
  }

  lemma TeachingNeeds(c: Compiled, parameters: Parameters, e: Effect, m: Machine)
    requires e.TeachNpc? && ApplyPlain(c, parameters, e, m).Ok? && KnowledgeSource(e.provenance).Some?
    ensures Possesses(m.state.world, (KnowledgeSource(e.provenance).value, e.knowledge))
  {
  }

  lemma PlainFactsBarely(
    npcs: set<Id>, c: Compiled, parameters: Parameters, e: Effect, facts: set<Fact>, paths: set<GameState>, depth: nat)
    requires !e.RandomChance? && NamesPupils(e) && depth <= MAX_AST_DEPTH
    requires FactsBarely(facts, paths) && AllPathsAfter(c, parameters, e, paths).Some?
    ensures KnowledgeAfter(npcs, e, facts, depth).Some?
    ensures FactsBarely(KnowledgeAfter(npcs, e, facts, depth).value, AllPathsAfter(c, parameters, e, paths).value)
  {
    hide ApplyPlain, AllPathsAfter, Possesses, Taught, Text.Blank;
    OfferedExactly.PlainPaths(c, parameters, e, paths);
    var next := AllPathsAfter(c, parameters, e, paths).value;
    if e.TeachNpc? && KnowledgeSource(e.provenance).Some? {
      var fact := (KnowledgeSource(e.provenance).value, e.knowledge);
      if fact !in facts {
        assert Lacks(paths, fact);
        var p :| p in paths && !Possesses(p.world, fact);
        TeachingNeeds(c, parameters, e, Start(p));
        assert false;
      }
    }
    var after := KnowledgeAfter(npcs, e, facts, depth).value;
    forall fact: Fact | fact !in after ensures Lacks(next, fact) {
      assert Lacks(paths, fact);
      var p :| p in paths && !Possesses(p.world, fact);
      PlainTeachesOnly(c, parameters, e, Start(p), fact);
      assert ApplyPlain(c, parameters, e, Start(p)).value.state in next;
    }
    var some :| some in paths;
    assert ApplyPlain(c, parameters, e, Start(some)).value.state in next;
  }

  lemma SpentFacts(facts: set<Fact>, paths: set<GameState>)
    requires FactsBarely(facts, paths) && forall p <- paths :: p.entropy.cursor < MAX_ENTROPY_CURSOR
    ensures FactsBarely(facts, OfferedExactly.SpentAll(paths))
  {
    hide Possesses;
    var spent := OfferedExactly.SpentAll(paths);
    var some :| some in paths;
    assert Spent(some) in spent;
    forall fact: Fact | fact !in facts ensures Lacks(spent, fact) {
      assert Lacks(paths, fact);
      var p :| p in paths && !Possesses(p.world, fact);
      assert Spent(p) in spent;
    }
  }

  lemma SharedFacts(a: set<Fact>, b: set<Fact>, p: set<GameState>, q: set<GameState>)
    requires FactsBarely(a, p) && FactsBarely(b, q)
    ensures FactsBarely(a * b, p + q)
  {
    hide Possesses;
    forall fact: Fact | fact !in a * b ensures Lacks(p + q, fact) {
      if fact !in a {
        assert Lacks(p, fact);
      } else {
        assert Lacks(q, fact);
      }
    }
  }

  lemma {:induction false} EffectFactsBarely(
    npcs: set<Id>, c: Compiled, parameters: Parameters, e: Effect, facts: set<Fact>, paths: set<GameState>, depth: nat)
    requires NamesPupils(e) && Shallow(e, depth)
    requires FactsBarely(facts, paths) && AllPathsAfter(c, parameters, e, paths).Some?
    ensures KnowledgeAfter(npcs, e, facts, depth).Some?
    ensures FactsBarely(KnowledgeAfter(npcs, e, facts, depth).value, AllPathsAfter(c, parameters, e, paths).value)
    decreases e
  {
    hide FactsBarely, AllPathsAfter, OfferedExactly.SpentAll, Text.Blank, SourceGuaranteed, Taught;
    if e.RandomChance? {
      OfferedExactly.ChancePaths(c, parameters, e, paths);
      SpentFacts(facts, paths);
      var spent := OfferedExactly.SpentAll(paths);
      if e.percent != 0 {
        EffectFactsBarely(npcs, c, parameters, e.onSuccess, facts, spent, depth + 1);
      }
      if e.percent != 100 {
        EffectFactsBarely(npcs, c, parameters, e.onFailure, facts, spent, depth + 1);
      }
      if e.percent != 0 && e.percent != 100 {
        SharedFacts(KnowledgeAfter(npcs, e.onSuccess, facts, depth + 1).value,
                    KnowledgeAfter(npcs, e.onFailure, facts, depth + 1).value,
                    AllPathsAfter(c, parameters, e.onSuccess, spent).value,
                    AllPathsAfter(c, parameters, e.onFailure, spent).value);
      }
    } else {
      PlainFactsBarely(npcs, c, parameters, e, facts, paths, depth);
    }
  }

  lemma {:induction false} EffectsFactsBarely(
    npcs: set<Id>, c: Compiled, parameters: Parameters, effects: seq<Effect>, facts: set<Fact>, paths: set<GameState>)
    requires forall e <- effects :: NamesPupils(e) && Shallow(e, 0)
    requires FactsBarely(facts, paths) && PathsAfterAll(c, parameters, effects, paths).Some?
    ensures KnowledgeAfterList(npcs, effects, facts, 0).Some?
    decreases |effects|
  {
    hide FactsBarely, AllPathsAfter, KnowledgeAfter, NamesPupils, Shallow;
    if effects != [] {
      EffectFactsBarely(npcs, c, parameters, effects[0], facts, paths, 0);
      EffectsFactsBarely(npcs, c, parameters, effects[1..], KnowledgeAfter(npcs, effects[0], facts, 0).value,
                         AllPathsAfter(c, parameters, effects[0], paths).value);
    }
  }

  /** An issue with what a program teaches is real: from any state that knows just what is guaranteed, some draws make it fail. */
  lemma KnowledgeIssueIsReal(
    npcs: set<Id>, c: Compiled, parameters: Parameters, effects: seq<Effect>, facts: set<Fact>, s: GameState)
    returns (chosen: Stream)
    requires s.entropy.algorithm == ENTROPY_ALGORITHM
    requires forall e <- effects :: FairChances(e) && Shallow(e, 0) && NamesPupils(e)
    requires forall fact: Fact :: Possesses(s.world, fact) ==> fact in facts
    requires KnowledgeAfterList(npcs, effects, facts, 0).None?
    ensures ApplyEffects(c, chosen, parameters, effects, Start(s)).Err?
  {
    hide ApplyEffects, KnowledgeAfterList, FairChances, Shallow, NamesPupils, Possesses;
    assert Shadow(Start(s)) == s;
    forall fact: Fact | fact !in facts ensures Lacks({s}, fact) {
      assert s in {s};
    }
    if PathsAfterAll(c, parameters, effects, {s}).Some? {
      EffectsFactsBarely(npcs, c, parameters, effects, facts, {s});
    }
    StartIsReady(effects, s);
    chosen := ProgramStream(c, (seed, cursor) => 0, parameters, effects, Start(s), None);
  }
}

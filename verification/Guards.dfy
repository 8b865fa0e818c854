// Two static analyses of guarded programs: guaranteed stock and guaranteed NPC knowledge
// (guaranteed_inventory, deferred_inventory_after, guaranteed_npc_knowledge and its effect walk).
module Guards {
  import opened Basics
  import opened Model
  import opened Content
  import opened Effects
  import opened Kernel
  import opened Validation
  import opened Availability
  import StockBounds
  import Lineage
  import Text

  // ---- Stock a condition guarantees ----

  /** The larger of two guarantees, item by item. */
  function Strongest(a: Inventory, b: Inventory): Inventory {
    map item | item in a.Keys + b.Keys :: Max(Count(a, item), Count(b, item))
  }

  /** inventory_guarantee_intersection: what both sides guarantee. */
  function Weakest(a: Inventory, b: Inventory): Inventory {
    map item | item in a && item in b :: Min(a[item], b[item])
  }

  function GuaranteedStock(condition: Condition, depth: nat): Inventory
    decreases condition
  {
    if depth > MAX_AST_DEPTH then map[]
    else
      match condition
      case HasItem(item, count) => map[item := count]
      case All(conditions) => AllStock(conditions, depth)
      case Any(conditions) => AnyStock(conditions, depth)
      case _ => map[]
  }

  function AllStock(conditions: seq<Condition>, depth: nat): Inventory
    decreases conditions
  {
    if conditions == [] then map[]
    else
      Strongest(AllStock(conditions[..|conditions| - 1], depth),
                GuaranteedStock(conditions[|conditions| - 1], depth + 1))
  }

  function AnyStock(conditions: seq<Condition>, depth: nat): Inventory
    decreases conditions
  {
    if conditions == [] then map[]
    else if |conditions| == 1 then GuaranteedStock(conditions[0], depth + 1)
    else
      Weakest(AnyStock(conditions[..|conditions| - 1], depth),
              GuaranteedStock(conditions[|conditions| - 1], depth + 1))
  }

  /** An inventory that holds at least what is guaranteed. */
  predicate Covers(inventory: Inventory, guaranteed: Inventory) {
    forall item <- guaranteed :: guaranteed[item] <= Count(inventory, item)
  }

  /** A condition that holds guarantees its stock. */
  lemma {:induction false} StockGuaranteed(condition: Condition, s: GameState, depth: nat)
    requires condition.Holds(s)
    ensures Covers(s.character.inventory, GuaranteedStock(condition, depth))
    decreases condition
  {
    if depth <= MAX_AST_DEPTH {
      match condition
      case All(conditions) => AllStockGuaranteed(conditions, s, depth);
      case Any(conditions) => AnyStockGuaranteed(conditions, s, depth);
      case _ =>
    }
  }

  lemma {:induction false} AllStockGuaranteed(conditions: seq<Condition>, s: GameState, depth: nat)
    requires forall x <- conditions :: x.Holds(s)
    ensures Covers(s.character.inventory, AllStock(conditions, depth))
    decreases conditions
  {
    if conditions != [] {
      AllStockGuaranteed(conditions[..|conditions| - 1], s, depth);
      StockGuaranteed(conditions[|conditions| - 1], s, depth + 1);
    }
  }

  lemma {:induction false} AnyStockGuaranteed(conditions: seq<Condition>, s: GameState, depth: nat)
    requires exists x <- conditions :: x.Holds(s)
    ensures Covers(s.character.inventory, AnyStock(conditions, depth))
    decreases conditions
  {
    var front, last := conditions[..|conditions| - 1], conditions[|conditions| - 1];
    assert conditions == front + [last];
    if last.Holds(s) {
      StockGuaranteed(last, s, depth + 1);
    } else {
      AnyStockGuaranteed(front, s, depth);
    }
  }

  // ---- Stock a program keeps guaranteeing ----

  function FindRecipe(recipes: seq<RecipeDefinition>, id: Id): Option<RecipeDefinition> {
    if recipes == [] then None
    else if recipes[0].id == id then Some(recipes[0])
    else FindRecipe(recipes[1..], id)
  }

  function CraftGuarantee(g: Inventory, r: RecipeDefinition): Option<Inventory> {
    if HasInputs(g, r.inputs) && HasRoom(g, r.inputs, r.outputs)
    then Some(map item | item in g.Keys + r.inputs.Keys + r.outputs.Keys
                :: Count(g, item) - Count(r.inputs, item) + Count(r.outputs, item))
    else None
  }

  /** The guarantee after an effect, over every outcome; None when an issue is reported. */
  function StockAfter(recipes: seq<RecipeDefinition>, e: Effect, g: Inventory, depth: nat): Option<Inventory>
    decreases e
  {
    if depth > MAX_AST_DEPTH then Some(g)
    else
      match e
      case ApplyRecipe(recipe) =>
        var r := FindRecipe(recipes, recipe);
        if r.None? then Some(g) else CraftGuarantee(g, r.value)
      case RandomChance(percent, onSuccess, onFailure) =>
        var success := StockAfter(recipes, onSuccess, g, depth + 1);
        var failure := StockAfter(recipes, onFailure, g, depth + 1);
        if percent == 0 then failure
        else if percent == 100 then success
        else if success.None? || failure.None? then None
        else Some(Weakest(success.value, failure.value))
      case _ => Some(g)
  }

  function StockAfterList(recipes: seq<RecipeDefinition>, effects: seq<Effect>, g: Inventory, depth: nat): Option<Inventory> {
    if effects == [] then Some(g)
    else
      var next := StockAfter(recipes, effects[0], g, depth);
      if next.None? then None else StockAfterList(recipes, effects[1..], next.value, depth)
  }

  /** validate_deferred_recipe_guards reports no issue. */
  predicate StockGuarded(d: Draft, e: DeferredEvent) {
    StockAfterList(d.recipes, e.effects, GuaranteedStock(e.condition, 0), 0).Some?
  }

  lemma CoversAfterCraft(inventory: Inventory, g: Inventory, r: RecipeDefinition)
    requires Covers(inventory, g) && CraftGuarantee(g, r).Some?
    ensures HasInputs(inventory, r.inputs)
    ensures HasRoom(inventory, r.inputs, r.outputs) ==>
      Covers(AfterRecipe(inventory, r.inputs, r.outputs), CraftGuarantee(g, r).value)
  {
    assert forall item :: Count(g, item) <= Count(inventory, item);
  }

  lemma {:induction false} FindRecipeDistinct(recipes: seq<RecipeDefinition>, r: RecipeDefinition)
    requires DistinctIds(recipes, RecipeKey) && r in recipes
    ensures FindRecipe(recipes, r.id) == Some(r)
    decreases |recipes|
  {
    if recipes[0] != r {
      var i :| 0 < i < |recipes| && recipes[i] == r;
      assert RecipeKey(recipes[0]) != RecipeKey(recipes[i]);
      assert recipes[1..][i - 1] == r;
      forall a, b | 0 <= a < b < |recipes[1..]| ensures RecipeKey(recipes[1..][a]) != RecipeKey(recipes[1..][b]) {
        assert RecipeKey(recipes[a + 1]) != RecipeKey(recipes[b + 1]);
      }
      FindRecipeDistinct(recipes[1..], r);
    }
  }

  lemma CompiledRecipe(d: Draft, recipe: Id)
    requires StructureValid(d) && recipe in Compile(d).recipes
    ensures FindRecipe(d.recipes, recipe) == Some(Compile(d).recipes[recipe])
  {
    TableEntries(d.recipes, RecipeKey);
    FindRecipeDistinct(d.recipes, Compile(d).recipes[recipe]);
  }

  lemma CraftHasStock(d: Draft, recipe: Id, m: Machine, g: Inventory)
    requires StructureValid(d) && Covers(m.state.character.inventory, g)
    requires var r := FindRecipe(d.recipes, recipe); r.Some? ==> CraftGuarantee(g, r.value).Some?
    ensures var result, r := Craft(Compile(d), m, recipe), FindRecipe(d.recipes, recipe);
            && result != Err(LacksStock)
            && (result.Ok? ==> r.Some? && Covers(result.value.state.character.inventory, CraftGuarantee(g, r.value).value))
  {
    if recipe in Compile(d).recipes {
      CompiledRecipe(d, recipe);
      CoversAfterCraft(m.state.character.inventory, g, Compile(d).recipes[recipe]);
    }
  }

  /** Every outcome of a guarded effect has the stock it needs, and keeps what is guaranteed. */
  lemma {:induction false} EffectHasStock(
    d: Draft, stream: Stream, parameters: Parameters, e: Effect, m: Machine, g: Inventory, depth: nat)
    requires StructureValid(d) && Quiet(e) && EffectChecked(NpcIds(d), e, depth, false) && depth <= MAX_AST_DEPTH
    requires Covers(m.state.character.inventory, g) && StockAfter(d.recipes, e, g, depth).Some?
    ensures var result := ApplyEffect(Compile(d), stream, parameters, e, m);
            && result != Err(LacksStock)
            && (result.Ok? ==> Covers(result.value.state.character.inventory, StockAfter(d.recipes, e, g, depth).value))
    decreases e
  {
    hide StructureValid, ApplyPlain;
    if e.RandomChance? {
      var drawn := Chance(stream, e.percent, m);
      if drawn.Ok? {
        var branch := if drawn.value.1 then e.onSuccess else e.onFailure;
        BranchStock(d.recipes, e, g, depth, drawn.value.1);
        EffectHasStock(d, stream, parameters, branch, drawn.value.0, g, depth + 1);
      }
    } else {
      PlainHasStock(d, parameters, e, m, g, depth);
    }
  }

  /** The guarantee after a random choice is at most that of the branch a draw can take. */
  lemma BranchStock(recipes: seq<RecipeDefinition>, e: Effect, g: Inventory, depth: nat, success: bool)
    requires e.RandomChance? && depth <= MAX_AST_DEPTH && e.percent <= 100
    requires if success then e.percent > 0 else e.percent < 100
    requires StockAfter(recipes, e, g, depth).Some?
    ensures var branch := StockAfter(recipes, if success then e.onSuccess else e.onFailure, g, depth + 1);
            branch.Some? && forall inventory :: Covers(inventory, branch.value) ==>
              Covers(inventory, StockAfter(recipes, e, g, depth).value)
  {
  }

  lemma PlainHasStock(d: Draft, parameters: Parameters, e: Effect, m: Machine, g: Inventory, depth: nat)
    requires StructureValid(d) && Quiet(e) && !e.RandomChance? && depth <= MAX_AST_DEPTH
    requires Covers(m.state.character.inventory, g) && StockAfter(d.recipes, e, g, depth).Some?
    ensures var result := ApplyPlain(Compile(d), parameters, e, m);
            && result != Err(LacksStock)
            && (result.Ok? ==> Covers(result.value.state.character.inventory, StockAfter(d.recipes, e, g, depth).value))
  {
    if e.ApplyRecipe? {
      CraftHasStock(d, e.recipe, m, g);
    } else {
      QuietKeepsStock(Compile(d), parameters, e, m);
    }
  }

  lemma QuietKeepsStock(c: Compiled, parameters: Parameters, e: Effect, m: Machine)
    requires Quiet(e) && !e.RandomChance? && !e.ApplyRecipe?
    ensures var result := ApplyPlain(c, parameters, e, m);
            && result != Err(LacksStock)
            && (result.Ok? ==> result.value.state.character.inventory == m.state.character.inventory)
  {
  }

  lemma {:induction false} EffectsHaveStock(d: Draft, stream: Stream, effects: seq<Effect>, m: Machine, g: Inventory)
    requires StructureValid(d)
    requires forall e <- effects :: Quiet(e) && EffectChecked(NpcIds(d), e, 0, false)
    requires Covers(m.state.character.inventory, g) && StockAfterList(d.recipes, effects, g, 0).Some?
    ensures ApplyEffects(Compile(d), stream, map[], effects, m) != Err(LacksStock)
    decreases |effects|
  {
    if effects != [] {
      EffectHasStock(d, stream, map[], effects[0], m, g, 0);
      var next := ApplyEffect(Compile(d), stream, map[], effects[0], m);
      if next.Ok? {
        EffectsHaveStock(d, stream, effects[1..], next.value, StockAfter(d.recipes, effects[0], g, 0).value);
      }
    }
  }

  // ---- Knowledge a condition guarantees ----

  type Fact = (Id, Id)

  function GuaranteedKnowledge(condition: Condition, depth: nat): set<Fact>
    decreases condition
  {
    if depth > MAX_AST_DEPTH then {}
    else
      match condition
      case All(conditions) => AllKnowledge(conditions, depth)
      case Any(conditions) => AnyKnowledge(conditions, depth)
      case NpcKnows(npc, knowledge) => {(npc, knowledge)}
      case NpcKnowsWithProvenance(npc, knowledge, _) => {(npc, knowledge)}
      case _ => {}
  }

  function AllKnowledge(conditions: seq<Condition>, depth: nat): set<Fact>
    decreases conditions
  {
    if conditions == [] then {}
    else AllKnowledge(conditions[..|conditions| - 1], depth)
         + GuaranteedKnowledge(conditions[|conditions| - 1], depth + 1)
  }

  function AnyKnowledge(conditions: seq<Condition>, depth: nat): set<Fact>
    decreases conditions
  {
    if conditions == [] then {}
    else if |conditions| == 1 then GuaranteedKnowledge(conditions[0], depth + 1)
    else AnyKnowledge(conditions[..|conditions| - 1], depth)
         * GuaranteedKnowledge(conditions[|conditions| - 1], depth + 1)
  }

  predicate Possesses(w: World, fact: Fact) {
    fact.0 in w.npcs && fact.1 in w.npcs[fact.0].knowledge
  }

  predicate Known(w: World, facts: set<Fact>) {
    forall fact <- facts :: Possesses(w, fact)
  }

  /** A condition that holds guarantees its knowledge. */
  lemma {:induction false} KnowledgeGuaranteed(condition: Condition, s: GameState, depth: nat)
    requires condition.Holds(s)
    ensures Known(s.world, GuaranteedKnowledge(condition, depth))
    decreases condition
  {
    if depth <= MAX_AST_DEPTH {
      match condition
      case All(conditions) => AllKnowledgeGuaranteed(conditions, s, depth);
      case Any(conditions) => AnyKnowledgeGuaranteed(conditions, s, depth);
      case _ =>
    }
  }

  lemma {:induction false} AllKnowledgeGuaranteed(conditions: seq<Condition>, s: GameState, depth: nat)
    requires forall x <- conditions :: x.Holds(s)
    ensures Known(s.world, AllKnowledge(conditions, depth))
    decreases conditions
  {
    if conditions != [] {
      AllKnowledgeGuaranteed(conditions[..|conditions| - 1], s, depth);
      KnowledgeGuaranteed(conditions[|conditions| - 1], s, depth + 1);
    }
  }

  lemma {:induction false} AnyKnowledgeGuaranteed(conditions: seq<Condition>, s: GameState, depth: nat)
    requires exists x <- conditions :: x.Holds(s)
    ensures Known(s.world, AnyKnowledge(conditions, depth))
    decreases conditions
  {
    var front, last := conditions[..|conditions| - 1], conditions[|conditions| - 1];
    assert conditions == front + [last];
    if last.Holds(s) {
      KnowledgeGuaranteed(last, s, depth + 1);
    } else {
      AnyKnowledgeGuaranteed(front, s, depth);
    }
  }

  // ---- Knowledge a program keeps guaranteeing ----

  function Taught(npc: StringRef, knowledge: Id): set<Fact> {
    if npc.Literal? && !Text.Blank(npc.value) && !Text.Blank(knowledge) then {(npc.value, knowledge)} else {}
  }

  /** A registered source whose possession is not guaranteed is an issue. */
  predicate SourceGuaranteed(npcs: set<Id>, facts: set<Fact>, provenance: Provenance, knowledge: Id) {
    var source := KnowledgeSource(provenance);
    source.Some? && !Text.Blank(knowledge) && !Text.Blank(source.value) && source.value in npcs ==>
      (source.value, knowledge) in facts
  }

  function KnowledgeAfter(npcs: set<Id>, e: Effect, facts: set<Fact>, depth: nat): Option<set<Fact>>
    decreases e
  {
    if depth > MAX_AST_DEPTH then Some(facts)
    else
      match e
      case TeachNpc(npc, knowledge, _, provenance) =>
        if SourceGuaranteed(npcs, facts, provenance, knowledge) then Some(facts + Taught(npc, knowledge)) else None
      case RandomChance(percent, onSuccess, onFailure) =>
        var success := KnowledgeAfter(npcs, onSuccess, facts, depth + 1);
        var failure := KnowledgeAfter(npcs, onFailure, facts, depth + 1);
        if percent == 0 then failure
        else if percent == 100 then success
        else if success.None? || failure.None? then None
        else Some(success.value * failure.value)
      case _ => Some(facts)
  }

  function KnowledgeAfterList(npcs: set<Id>, effects: seq<Effect>, facts: set<Fact>, depth: nat): Option<set<Fact>> {
    if effects == [] then Some(facts)
    else
      var next := KnowledgeAfter(npcs, effects[0], facts, depth);
      if next.None? then None else KnowledgeAfterList(npcs, effects[1..], next.value, depth)
  }

  /** validate_knowledge_transfer_guarantees reports no issue. */
  predicate KnowledgeGuarded(d: Draft, condition: Condition, effects: seq<Effect>) {
    KnowledgeAfterList(NpcIds(d), effects, GuaranteedKnowledge(condition, 0), 0).Some?
  }

  /** Knowledge is never lost. */
  lemma FactSurvives(c: Compiled, parameters: Parameters, e: Effect, m: Machine, fact: Fact)
    requires !e.RandomChance? && Possesses(m.state.world, fact)
    requires ApplyPlain(c, parameters, e, m).Ok?
    ensures Possesses(ApplyPlain(c, parameters, e, m).value.state.world, fact)
  {
    match e
    case MoveNpc(_, _) =>
    case TeachNpc(_, _, _, _) =>
    case AddNpcMemory(_, _, _, _) =>
    case TransferNpcItemToCharacter(_, _, _) =>
    case _ =>
  }

  lemma PlainKeepsKnowledge(c: Compiled, parameters: Parameters, e: Effect, m: Machine, facts: set<Fact>)
    requires !e.RandomChance? && Known(m.state.world, facts)
    requires ApplyPlain(c, parameters, e, m).Ok?
    ensures Known(ApplyPlain(c, parameters, e, m).value.state.world, facts)
    ensures e.TeachNpc? ==> Known(ApplyPlain(c, parameters, e, m).value.state.world, Taught(e.npc, e.knowledge))
  {
    forall fact | fact in facts ensures Possesses(ApplyPlain(c, parameters, e, m).value.state.world, fact) {
      FactSurvives(c, parameters, e, m, fact);
    }
  }

  /** No registered NPC has a blank id. */
  predicate NamedNpcs(d: Draft) {
    forall n <- d.npcs :: !Text.Blank(n.id)
  }

  /** Every outcome of a guarded effect finds its knowledge sources informed. */
  lemma {:induction false} EffectIsInformed(
    d: Draft, stream: Stream, parameters: Parameters, e: Effect, m: Machine, facts: set<Fact>, depth: nat, allow: bool)
    requires NamedNpcs(d) && EffectChecked(NpcIds(d), e, depth, allow) && depth <= MAX_AST_DEPTH
    requires Known(m.state.world, facts) && KnowledgeAfter(NpcIds(d), e, facts, depth).Some?
    ensures var result := ApplyEffect(Compile(d), stream, parameters, e, m);
            && result != Err(SourceLacksKnowledge)
            && (result.Ok? ==> Known(result.value.state.world, KnowledgeAfter(NpcIds(d), e, facts, depth).value))
    decreases e
  {
    hide ApplyPlain, Possesses, NamedNpcs, SourceGuaranteed, SourceKnows, NpcIds;
    match e
    case RandomChance(percent, onSuccess, onFailure) =>
      var drawn := Chance(stream, percent, m);
      if drawn.Ok? {
        if drawn.value.1 {
          EffectIsInformed(d, stream, parameters, onSuccess, drawn.value.0, facts, depth + 1, allow);
        } else {
          EffectIsInformed(d, stream, parameters, onFailure, drawn.value.0, facts, depth + 1, allow);
        }
      }
    case _ => PlainIsInformed(d, parameters, e, m, facts, depth, allow);
  }

  lemma PlainIsInformed(
    d: Draft, parameters: Parameters, e: Effect, m: Machine, facts: set<Fact>, depth: nat, allow: bool)
    requires NamedNpcs(d) && EffectChecked(NpcIds(d), e, depth, allow) && depth <= MAX_AST_DEPTH && !e.RandomChance?
    requires Known(m.state.world, facts) && KnowledgeAfter(NpcIds(d), e, facts, depth).Some?
    ensures var result := ApplyPlain(Compile(d), parameters, e, m);
            && result != Err(SourceLacksKnowledge)
            && (result.Ok? ==> Known(result.value.state.world, KnowledgeAfter(NpcIds(d), e, facts, depth).value))
  {
    hide ApplyPlain, Compile;
    var c := Compile(d);
    OnlyTeachingAsks(c, parameters, e, m);
    if ApplyPlain(c, parameters, e, m).Ok? {
      PlainKeepsKnowledge(c, parameters, e, m, facts);
    }
  }

  lemma OnlyTeachingAsks(c: Compiled, parameters: Parameters, e: Effect, m: Machine)
    requires !e.RandomChance?
    ensures ApplyPlain(c, parameters, e, m) == Err(SourceLacksKnowledge) <==>
      e.TeachNpc? && !SourceKnows(m.state.world, e.provenance, e.knowledge)
  {
  }

  lemma {:induction false} EffectsAreInformed(
    d: Draft, stream: Stream, parameters: Parameters, effects: seq<Effect>, m: Machine, facts: set<Fact>, allow: bool)
    requires NamedNpcs(d) && forall e <- effects :: EffectChecked(NpcIds(d), e, 0, allow)
    requires Known(m.state.world, facts) && KnowledgeAfterList(NpcIds(d), effects, facts, 0).Some?
    ensures ApplyEffects(Compile(d), stream, parameters, effects, m) != Err(SourceLacksKnowledge)
    decreases |effects|
  {
    if effects != [] {
      EffectIsInformed(d, stream, parameters, effects[0], m, facts, 0, allow);
      var next := ApplyEffect(Compile(d), stream, parameters, effects[0], m);
      if next.Ok? {
        EffectsAreInformed(d, stream, parameters, effects[1..], next.value,
                           KnowledgeAfter(NpcIds(d), effects[0], facts, 0).value, allow);
      }
    }
  }

  // ---- What guarded content guarantees of every transition ----

  /** The guard checks of validate_draft for production content. */
  predicate GuardsValid(d: Draft) {
    && NamedNpcs(d)
    && (forall e <- d.deferredEvents :: StockGuarded(d, e) && KnowledgeGuarded(d, e.condition, e.effects))
    && (forall t <- d.timedEvents :: KnowledgeGuarded(d, t.condition, t.effects))
    && (forall a <- d.actions :: KnowledgeGuarded(d, a.condition, a.effects))
  }

  lemma {:induction false} TimedProgramsCraftNothing(d: Draft, e: Effect, depth: nat)
    requires depth <= MAX_AST_DEPTH && EffectChecked(NpcIds(d), e, depth, false)
    requires RecipeChecked(RecipeIds(d), e, depth, false)
    ensures !Crafts(e)
  {
    if e.RandomChance? {
      TimedProgramsCraftNothing(d, e.onSuccess, depth + 1);
      TimedProgramsCraftNothing(d, e.onFailure, depth + 1);
    }
  }

  lemma TimedProgram(d: Draft, id: Id)
    requires StructureValid(d) && id in Compile(d).timedEvents
    ensures Compile(d).timedEvents[id] in d.timedEvents
    ensures forall e <- Compile(d).timedEvents[id].effects ::
      Quiet(e) && !Crafts(e) && EffectChecked(NpcIds(d), e, 0, false)
  {
    TableEntries(d.timedEvents, TimedKey);
    var t := Compile(d).timedEvents[id];
    assert t in d.timedEvents;
    forall e | e in t.effects ensures Quiet(e) && !Crafts(e) && EffectChecked(NpcIds(d), e, 0, false) {
      CheckedIsQuiet(d, e, 0);
      TimedProgramsCraftNothing(d, e, 0);
    }
  }

  lemma DeferredProgram(d: Draft, id: Id)
    requires StructureValid(d) && id in Compile(d).deferredEvents
    ensures Compile(d).deferredEvents[id] in d.deferredEvents
    ensures forall e <- Compile(d).deferredEvents[id].effects :: Quiet(e) && EffectChecked(NpcIds(d), e, 0, false)
  {
    TableEntries(d.deferredEvents, DeferredKey);
    var t := Compile(d).deferredEvents[id];
    assert t in d.deferredEvents;
    forall e | e in t.effects ensures Quiet(e) && EffectChecked(NpcIds(d), e, 0, false) {
      CheckedIsQuiet(d, e, 0);
    }
  }

  /** An event whose guard holds runs without lacking stock or an informed source, from any state. */
  lemma ResolveOneGuarded(d: Draft, stream: Stream, e: ScheduledEvent, m: Machine)
    requires StructureValid(d) && GuardsValid(d)
    ensures ResolveOne(Compile(d), stream, e, m) != Err(LacksStock)
    ensures ResolveOne(Compile(d), stream, e, m) != Err(SourceLacksKnowledge)
  {
    var c := Compile(d);
    var program := ProgramOf(c, e);
    if program.Some? && program.value.condition.Holds(m.state) {
      var noted := EmitWorld(m, m.state.world, Resolved(e.id, e.kind, true));
      StockGuaranteed(program.value.condition, m.state, 0);
      KnowledgeGuaranteed(program.value.condition, m.state, 0);
      var facts := GuaranteedKnowledge(program.value.condition, 0);
      if e.id in c.timedEvents {
        TimedProgram(d, e.id);
        StockBounds.CraftlessProgramNeverShort(c, stream, program.value.effects, noted);
      } else {
        DeferredProgram(d, e.id);
        EffectsHaveStock(d, stream, program.value.effects, noted, GuaranteedStock(program.value.condition, 0));
      }
      EffectsAreInformed(d, stream, map[], program.value.effects, noted, facts, false);
    }
  }

  lemma {:induction false} ResolveAllGuarded(d: Draft, stream: Stream, due: seq<ScheduledEvent>, m: Machine)
    requires StructureValid(d) && GuardsValid(d)
    ensures ResolveAll(Compile(d), stream, due, m) != Err(LacksStock)
    ensures ResolveAll(Compile(d), stream, due, m) != Err(SourceLacksKnowledge)
    decreases |due|
  {
    if due != [] {
      ResolveOneGuarded(d, stream, due[0], m);
      var next := ResolveOne(Compile(d), stream, due[0], m);
      if next.Ok? {
        ResolveAllGuarded(d, stream, due[1..], next.value);
      }
    }
  }

  lemma ActionIsInformed(d: Draft, stream: Stream, s: GameState, action: Id, parameters: Parameters)
    requires StructureValid(d) && GuardsValid(d) && Legal(Compile(d), s, action, parameters)
    ensures ApplyEffects(Compile(d), stream, parameters, Compile(d).actions[action].effects, Effects.Start(s))
         != Err(SourceLacksKnowledge)
  {
    hide ApplyEffects;
    TableEntries(d.actions, ActionKey);
    var definition := Compile(d).actions[action];
    assert definition in d.actions;
    KnowledgeGuaranteed(definition.condition, s, 0);
    EffectsAreInformed(d, stream, parameters, definition.effects, Effects.Start(s),
                       GuaranteedKnowledge(definition.condition, 0), true);
  }

  /** No transition, from any state and with any draws, fails for want of an informed source. */
  lemma StepIsInformed(d: Draft, stream: Stream, s: GameState, action: Id, parameters: Parameters)
    requires StructureValid(d) && GuardsValid(d)
    ensures Step(Compile(d), stream, s, action, parameters) != Err(SourceLacksKnowledge)
  {
    hide StructureValid, GuardsValid, ApplyEffects, ResolveAll;
    var c := Compile(d);
    if Legal(c, s, action, parameters) {
      ActionIsInformed(d, stream, s, action, parameters);
      var acted := ApplyEffects(c, stream, parameters, c.actions[action].effects, Effects.Start(s));
      if acted.Ok? {
        ResolveAllGuarded(d, stream, DueNow(acted.value), WithoutDue(acted.value));
      }
    }
  }

  /** Once the action's own effects are done, no due event can fail for want of stock. */
  lemma DueEventsHaveStock(d: Draft, stream: Stream, m: Machine)
    requires StructureValid(d) && GuardsValid(d)
    ensures ResolveDue(Compile(d), stream, m) != Err(LacksStock)
  {
    ResolveAllGuarded(d, stream, DueNow(m), WithoutDue(m));
  }

  // ---- The analyses as the validator runs them ----

  lemma GuaranteeConsumeOne(g: Inventory, done: Inventory, item: Id, count: u32)
    requires HasInputs(g, done) && item !in done && count <= Count(g, item)
    ensures HasInputs(g, done[item := count])
    ensures GuaranteeAfterInputs(g, done[item := count])
         == GuaranteeAfterInputs(g, done)[item := Count(g, item) - count]
  {
  }

  /** Guarantees keep an entry even at zero. */
  function GuaranteeAfterInputs(g: Inventory, inputs: Inventory): Inventory
    requires HasInputs(g, inputs)
  {
    map item | item in g.Keys + inputs.Keys :: Count(g, item) - Count(inputs, item)
  }

  method ConsumeGuarantee(g: Inventory, inputs: Inventory) returns (left: Inventory, ok: bool)
    ensures ok <==> HasInputs(g, inputs)
    ensures ok ==> left == GuaranteeAfterInputs(g, inputs)
  {
    left, ok := g, true;
    var rest := inputs.Keys;
    while rest != {}
      invariant rest <= inputs.Keys
      invariant ok <==> HasInputs(g, inputs - rest)
      invariant ok ==> left == GuaranteeAfterInputs(g, inputs - rest)
    {
      var item := Least(rest);
      assert inputs - (rest - {item}) == (inputs - rest)[item := inputs[item]];
      if ok {
        assert Count(left, item) == Count(g, item);
        if inputs[item] <= Count(g, item) {
          GuaranteeConsumeOne(g, inputs - rest, item, inputs[item]);
        }
      }
      rest := rest - {item};
      if Count(left, item) < inputs[item] {
        ok := false;
        continue;
      }
      left := left[item := Count(left, item) - inputs[item]];
    }
    assert inputs - rest == inputs;
  }

  lemma GuaranteeProduceOne(left: Inventory, done: Inventory, item: Id, count: u32)
    requires Lineage.OutputsFit(left, done) && item !in done && Count(left, item) + count <= U32_MAX
    ensures Lineage.OutputsFit(left, done[item := count])
    ensures Lineage.AfterOutputs(left, done[item := count])
         == Lineage.AfterOutputs(left, done)[item := Count(left, item) + count]
  {
  }

  method ProduceGuarantee(left: Inventory, outputs: Inventory) returns (next: Inventory, ok: bool)
    ensures ok <==> Lineage.OutputsFit(left, outputs)
    ensures ok ==> next == Lineage.AfterOutputs(left, outputs)
  {
    next, ok := left, true;
    var rest := outputs.Keys;
    assert Lineage.AfterOutputs(left, map[]) == left;
    while rest != {}
      invariant rest <= outputs.Keys
      invariant ok <==> Lineage.OutputsFit(left, outputs - rest)
      invariant ok ==> next == Lineage.AfterOutputs(left, outputs - rest)
    {
      var item := Least(rest);
      assert outputs - (rest - {item}) == (outputs - rest)[item := outputs[item]];
      if ok {
        assert Count(next, item) == Count(left, item);
        if Count(left, item) + outputs[item] <= U32_MAX {
          GuaranteeProduceOne(left, outputs - rest, item, outputs[item]);
        }
      }
      rest := rest - {item};
      if Count(next, item) + outputs[item] <= U32_MAX {
        next := next[item := Count(next, item) + outputs[item]];
      } else {
        ok := false;
      }
    }
    assert outputs - rest == outputs;
  }

  lemma CraftInTwoPhases(g: Inventory, r: RecipeDefinition)
    requires HasInputs(g, r.inputs)
    ensures var left := GuaranteeAfterInputs(g, r.inputs);
            && (Lineage.OutputsFit(left, r.outputs) <==> CraftGuarantee(g, r).Some?)
            && (CraftGuarantee(g, r).Some? ==> CraftGuarantee(g, r).value == Lineage.AfterOutputs(left, r.outputs))
  {
    hide HasInputs, HasRoom;
    InputsTaken(g, r.inputs);
    RoomInTwoPhases(g, r);
  }

  lemma InputsTaken(g: Inventory, inputs: Inventory)
    requires HasInputs(g, inputs)
    ensures GuaranteeAfterInputs(g, inputs).Keys == g.Keys + inputs.Keys
    ensures forall item: Id :: Count(GuaranteeAfterInputs(g, inputs), item) == Count(g, item) - Count(inputs, item)
  {
  }

  lemma RoomInTwoPhases(g: Inventory, r: RecipeDefinition)
    requires HasInputs(g, r.inputs)
    ensures Lineage.OutputsFit(GuaranteeAfterInputs(g, r.inputs), r.outputs) <==> HasRoom(g, r.inputs, r.outputs)
  {
    hide GuaranteeAfterInputs;
    InputsTaken(g, r.inputs);
  }

  method CraftGuaranteed(g: Inventory, r: RecipeDefinition) returns (next: Inventory, ok: bool)
    ensures ok <==> CraftGuarantee(g, r).Some?
    ensures ok ==> next == CraftGuarantee(g, r).value
  {
    var left, stocked := ConsumeGuarantee(g, r.inputs);
    var fits;
    next, fits := ProduceGuarantee(left, r.outputs);
    ok := stocked && fits;
    if stocked {
      CraftInTwoPhases(g, r);
    }
  }

  /** deferred_inventory_after: walk a program, updating the guarantee in place. */
  method DeferredInventoryAfter(
    effects: seq<Effect>, g: Inventory, recipes: seq<RecipeDefinition>, depth: nat) returns (after: Inventory, ok: bool)
    ensures ok <==> depth > MAX_AST_DEPTH || StockAfterList(recipes, effects, g, depth).Some?
    ensures ok ==> after == if depth > MAX_AST_DEPTH then g else StockAfterList(recipes, effects, g, depth).value
    decreases MAX_AST_DEPTH + 1 - depth
  {
    after, ok := g, true;
    if depth > MAX_AST_DEPTH {
      return;
    }
    ghost var expected := StockAfterList(recipes, effects, g, depth);
    for i := 0 to |effects|
      invariant ok ==> StockAfterList(recipes, effects[i..], after, depth) == expected
      invariant !ok ==> expected.None?
    {
      assert effects[i..][0] == effects[i] && effects[i..][1..] == effects[i + 1..];
      var fine;
      after, fine := StockStep(effects[i], after, recipes, depth);
      ok := ok && fine;
    }
  }

  method StockStep(e: Effect, g: Inventory, recipes: seq<RecipeDefinition>, depth: nat) returns (after: Inventory, ok: bool)
    requires depth <= MAX_AST_DEPTH
    ensures ok <==> StockAfter(recipes, e, g, depth).Some?
    ensures ok ==> after == StockAfter(recipes, e, g, depth).value
    decreases MAX_AST_DEPTH + 1 - depth, 0
  {
    after, ok := g, true;
    match e
    case ApplyRecipe(recipe) =>
      var r := FindRecipe(recipes, recipe);
      if r.Some? {
        after, ok := CraftGuaranteed(g, r.value);
      }
    case RandomChance(percent, onSuccess, onFailure) =>
      StockAfterSingleton(recipes, onSuccess, g, depth + 1);
      StockAfterSingleton(recipes, onFailure, g, depth + 1);
      if percent == 0 {
        after, ok := DeferredInventoryAfter([onFailure], g, recipes, depth + 1);
      } else if percent == 100 {
        after, ok := DeferredInventoryAfter([onSuccess], g, recipes, depth + 1);
      } else {
        var success, succeeds := DeferredInventoryAfter([onSuccess], g, recipes, depth + 1);
        var failure, fails := DeferredInventoryAfter([onFailure], g, recipes, depth + 1);
        after, ok := Weakest(success, failure), succeeds && fails;
      }
    case _ =>
  }

  lemma StockAfterSingleton(recipes: seq<RecipeDefinition>, e: Effect, g: Inventory, depth: nat)
    ensures StockAfterList(recipes, [e], g, depth) == StockAfter(recipes, e, g, depth)
  {
    assert [e][1..] == [];
  }

  /** validate_deferred_recipe_guards reports no issue exactly when the program's stock is guarded. */
  method ValidateDeferredRecipeGuards(d: Draft, e: DeferredEvent) returns (ok: bool)
    ensures ok <==> StockGuarded(d, e)
  {
    var guaranteed := GuaranteedStock(e.condition, 0);
    var _, fine := DeferredInventoryAfter(e.effects, guaranteed, d.recipes, 0);
    return fine;
  }

  // ---- Without chance, a reported issue is real ----

  ghost predicate SameCounts(a: Inventory, b: Inventory) {
    forall item :: Count(a, item) == Count(b, item)
  }

  lemma CraftGuaranteeExact(inventory: Inventory, g: Inventory, r: RecipeDefinition)
    requires SameCounts(inventory, g)
    ensures CraftGuarantee(g, r).Some? <==> HasInputs(inventory, r.inputs) && HasRoom(inventory, r.inputs, r.outputs)
    ensures CraftGuarantee(g, r).Some? ==>
      SameCounts(AfterRecipe(inventory, r.inputs, r.outputs), CraftGuarantee(g, r).value)
  {
    assert forall item :: Count(inventory, item) == Count(g, item);
  }

  lemma CertainEffectExact(d: Draft, e: Effect, m: Machine, g: Inventory)
    requires StructureValid(d) && Quiet(e) && !e.RandomChance? && SameCounts(m.state.character.inventory, g)
    ensures StockAfter(d.recipes, e, g, 0).None? ==> ApplyPlain(Compile(d), map[], e, m).Err?
    ensures StockAfter(d.recipes, e, g, 0).Some? && ApplyPlain(Compile(d), map[], e, m).Ok? ==>
      SameCounts(ApplyPlain(Compile(d), map[], e, m).value.state.character.inventory, StockAfter(d.recipes, e, g, 0).value)
  {
    hide StructureValid;
    if e.ApplyRecipe? {
      if e.recipe in Compile(d).recipes {
        CompiledRecipe(d, e.recipe);
        CraftGuaranteeExact(m.state.character.inventory, g, Compile(d).recipes[e.recipe]);
      }
    } else {
      QuietKeepsStock(Compile(d), map[], e, m);
    }
  }

  /** A chance-free program with a reported issue does fail, from any state holding just the guarantee. */
  lemma {:induction false} CertainIssueIsReal(d: Draft, stream: Stream, effects: seq<Effect>, m: Machine, g: Inventory)
    requires StructureValid(d) && SameCounts(m.state.character.inventory, g)
    requires forall e <- effects :: Quiet(e) && !e.RandomChance?
    requires StockAfterList(d.recipes, effects, g, 0).None?
    ensures ApplyEffects(Compile(d), stream, map[], effects, m).Err?
    decreases |effects|
  {
    CertainEffectExact(d, effects[0], m, g);
    var next := ApplyEffect(Compile(d), stream, map[], effects[0], m);
    if next.Ok? {
      CertainIssueIsReal(d, stream, effects[1..], next.value, StockAfter(d.recipes, effects[0], g, 0).value);
    }
  }

  // ---- The knowledge walk ----

  lemma KnowledgeAfterSingleton(npcs: set<Id>, e: Effect, facts: set<Fact>, depth: nat)
    ensures KnowledgeAfterList(npcs, [e], facts, depth) == KnowledgeAfter(npcs, e, facts, depth)
  {
    assert [e][1..] == [];
  }

  /** guaranteed_npc_knowledge_after_effects: walk a program, updating the facts in place. */
  method KnowledgeAfterEffects(effects: seq<Effect>, facts: set<Fact>, npcs: set<Id>, depth: nat)
    returns (after: set<Fact>, ok: bool)
    ensures ok <==> depth > MAX_AST_DEPTH || KnowledgeAfterList(npcs, effects, facts, depth).Some?
    ensures ok ==> after == if depth > MAX_AST_DEPTH then facts else KnowledgeAfterList(npcs, effects, facts, depth).value
    decreases MAX_AST_DEPTH + 1 - depth
  {
    after, ok := facts, true;
    if depth > MAX_AST_DEPTH {
      return;
    }
    ghost var expected := KnowledgeAfterList(npcs, effects, facts, depth);
    for i := 0 to |effects|
      invariant ok ==> KnowledgeAfterList(npcs, effects[i..], after, depth) == expected
      invariant !ok ==> expected.None?
    {
      assert effects[i..][0] == effects[i] && effects[i..][1..] == effects[i + 1..];
      var fine;
      after, fine := KnowledgeStep(effects[i], after, npcs, depth);
      ok := ok && fine;
    }
  }

  method KnowledgeStep(e: Effect, facts: set<Fact>, npcs: set<Id>, depth: nat) returns (after: set<Fact>, ok: bool)
    requires depth <= MAX_AST_DEPTH
    ensures ok <==> KnowledgeAfter(npcs, e, facts, depth).Some?
    ensures ok ==> after == KnowledgeAfter(npcs, e, facts, depth).value
    decreases MAX_AST_DEPTH + 1 - depth, 0
  {
    after, ok := facts, true;
    match e
    case TeachNpc(npc, knowledge, _, provenance) =>
      ok := SourceGuaranteed(npcs, facts, provenance, knowledge);
      after := facts + Taught(npc, knowledge);
    case RandomChance(percent, onSuccess, onFailure) =>
      KnowledgeAfterSingleton(npcs, onSuccess, facts, depth + 1);
      KnowledgeAfterSingleton(npcs, onFailure, facts, depth + 1);
      if percent == 0 {
        after, ok := KnowledgeAfterEffects([onFailure], facts, npcs, depth + 1);
      } else if percent == 100 {
        after, ok := KnowledgeAfterEffects([onSuccess], facts, npcs, depth + 1);
      } else {
        var success, succeeds := KnowledgeAfterEffects([onSuccess], facts, npcs, depth + 1);
        var failure, fails := KnowledgeAfterEffects([onFailure], facts, npcs, depth + 1);
        after, ok := success * failure, succeeds && fails;
      }
    case _ =>
  }

  /** validate_knowledge_transfer_guarantees reports no issue exactly when the program's sources are guarded. */
  method ValidateKnowledgeTransfers(d: Draft, condition: Condition, effects: seq<Effect>) returns (ok: bool)
    ensures ok <==> KnowledgeGuarded(d, condition, effects)
  {
    var facts := GuaranteedKnowledge(condition, 0);
    var _, fine := KnowledgeAfterEffects(effects, facts, NpcIds(d), 0);
    return fine;
  }
}

// Splitting items into recipe components and adding their bounds up (item_words_with_closure).
module SupplyWords {
  import opened Basics
  import opened Model
  import opened Content
  import opened Ownership
  import opened Validation
  import opened Sums
  import opened SupplyBudget
  import opened SupplyClosure

  type Graph = map<Id, set<Id>>

  /** A recipe links its first input, in key order, with all its items. */
  predicate LinkedBy(r: RecipeDefinition, a: Id, b: Id) {
    && r.inputs != map[]
    && var first := Least(r.inputs.Keys);
       (a == first && b in RecipeItems(r)) || (b == first && a in RecipeItems(r))
  }

  predicate Linked(recipes: seq<RecipeDefinition>, a: Id, b: Id) {
    exists r <- recipes :: LinkedBy(r, a, b)
  }

  function Vertices(d: Draft, items: set<Id>): set<Id> {
    items + ItemsOf(d.recipes)
  }

  function Adjacent(d: Draft, items: set<Id>): Graph {
    map a | a in Vertices(d, items) :: set b | b in ItemsOf(d.recipes) && Linked(d.recipes, a, b)
  }

  predicate Stable(graph: Graph, s: set<Id>) {
    forall a <- s :: a in graph && graph[a] <= s
  }

  /** The component of a vertex: the smallest stable set that holds it. */
  ghost function Component(graph: Graph, first: Id): set<Id> {
    set x | x in graph && forall s: set<Id> :: first in s && Stable(graph, s) ==> x in s
  }

  // ---- Building the graph ----

  function Neighbours(graph: Graph, a: Id): set<Id> {
    if a in graph then graph[a] else {}
  }

  predicate Edge(graph: Graph, a: Id, b: Id) {
    a in graph && b in graph[a]
  }

  /** The graph has the given vertices and the edges of the given recipes. */
  ghost predicate Links(graph: Graph, vertices: set<Id>, recipes: seq<RecipeDefinition>) {
    && graph.Keys == vertices
    && forall a, b :: Edge(graph, a, b) <==> Linked(recipes, a, b)
  }

  predicate Star(first: Id, items: set<Id>, a: Id, b: Id) {
    (a == first && b in items) || (b == first && a in items)
  }

  /** The edges after linking the first input with some of the recipe's items. */
  ghost predicate StarAdded(graph: Graph, first: Id, done: set<Id>, linked: Graph) {
    && graph.Keys + done <= linked.Keys <= graph.Keys + done + {first}
    && forall a, b :: Edge(linked, a, b) <==> Edge(graph, a, b) || Star(first, done, a, b)
  }

  ghost predicate EdgeAdded(graph: Graph, a: Id, b: Id, linked: Graph) {
    && linked.Keys == graph.Keys + {a, b}
    && forall x, y :: Edge(linked, x, y) <==> Edge(graph, x, y) || (x == a && y == b) || (x == b && y == a)
  }

  /** One undirected edge. */
  method Link(graph: Graph, a: Id, b: Id) returns (linked: Graph)
    ensures EdgeAdded(graph, a, b, linked)
  {
    linked := graph[a := Neighbours(graph, a) + {b}];
    linked := linked[b := Neighbours(linked, b) + {a}];
  }

  lemma StarOneMore(graph: Graph, first: Id, done: set<Id>, before: Graph, item: Id, linked: Graph)
    requires StarAdded(graph, first, done, before) && EdgeAdded(before, first, item, linked)
    ensures StarAdded(graph, first, done + {item}, linked)
  {
    forall a, b ensures Edge(linked, a, b) <==> Edge(graph, a, b) || Star(first, done + {item}, a, b) {
      assert Edge(before, a, b) <==> Edge(graph, a, b) || Star(first, done, a, b);
    }
  }

  lemma LinksOneMore(
    before: Graph, graph: Graph, vertices: set<Id>, recipes: seq<RecipeDefinition>, r: RecipeDefinition)
    requires r.inputs != map[] && Links(before, vertices, recipes)
    requires StarAdded(before, Least(r.inputs.Keys), RecipeItems(r), graph)
    ensures Links(graph, vertices + RecipeItems(r), recipes + [r])
  {
    forall a, b ensures Edge(graph, a, b) <==> Linked(recipes + [r], a, b) {
      assert Edge(graph, a, b) <==> Edge(before, a, b) || Star(Least(r.inputs.Keys), RecipeItems(r), a, b);
      LinkedOneMore(recipes, r, a, b);
    }
  }

  lemma LinkedOneMore(recipes: seq<RecipeDefinition>, r: RecipeDefinition, a: Id, b: Id)
    requires r.inputs != map[]
    ensures Linked(recipes + [r], a, b) <==> Linked(recipes, a, b) || Star(Least(r.inputs.Keys), RecipeItems(r), a, b)
  {
    if Linked(recipes, a, b) {
      var x :| x in recipes && LinkedBy(x, a, b);
      assert x in recipes + [r];
    }
    assert r in recipes + [r];
  }

  lemma StarNone(graph: Graph, first: Id)
    ensures StarAdded(graph, first, {}, graph)
  {
  }

  /** Link one vertex with the listed items. */
  method LinkStar(graph: Graph, first: Id, keys: seq<Id>) returns (linked: Graph)
    ensures StarAdded(graph, first, (set k <- keys), linked)
  {
    linked := graph;
    ghost var done: set<Id> := {};
    StarNone(graph, first);
    for i := 0 to |keys|
      invariant done == set k <- keys[..i]
      invariant StarAdded(graph, first, done, linked)
    {
      var next := Link(linked, first, keys[i]);
      StarOneMore(graph, first, done, linked, keys[i], next);
      linked, done := next, done + {keys[i]};
    }
    assert keys[..|keys|] == keys;
  }

  /** Add the links of one recipe: its first input with each of its inputs and outputs. */
  method LinkRecipe(graph: Graph, r: RecipeDefinition) returns (linked: Graph)
    requires r.inputs != map[]
    ensures StarAdded(graph, Least(r.inputs.Keys), RecipeItems(r), linked)
  {
    var keys := SortedKeys(r.inputs.Keys) + SortedKeys(r.outputs.Keys);
    assert (set k <- keys) == RecipeItems(r);
    linked := LinkStar(graph, Least(r.inputs.Keys), keys);
  }

  function ItemsOf(recipes: seq<RecipeDefinition>): set<Id> {
    set r, item | r in recipes && item in RecipeItems(r) :: item
  }

  /** The link graph; None if a recipe consumes nothing. */
  method BuildAdjacency(d: Draft, items: set<Id>) returns (graph: Option<Graph>)
    ensures graph.Some? <==> AllConsume(d.recipes)
    ensures graph.Some? ==> graph.value == Adjacent(d, items)
  {
    var linked: Graph := map item | item in items :: {};
    for i := 0 to |d.recipes|
      invariant forall r <- d.recipes[..i] :: r.inputs != map[]
      invariant Links(linked, items + ItemsOf(d.recipes[..i]), d.recipes[..i])
    {
      var r := d.recipes[i];
      if r.inputs == map[] {
        return None;
      }
      var next := LinkRecipe(linked, r);
      LinksOneMore(linked, next, items + ItemsOf(d.recipes[..i]), d.recipes[..i], r);
      assert d.recipes[..i + 1] == d.recipes[..i] + [r];
      ItemsOneMore(d.recipes[..i], r);
      assert items + ItemsOf(d.recipes[..i]) + RecipeItems(r) == items + ItemsOf(d.recipes[..i + 1]);
      linked := next;
    }
    assert d.recipes[..|d.recipes|] == d.recipes;
    LinksIsAdjacent(d, items, linked);
    return Some(linked);
  }

  lemma ItemsOneMore(recipes: seq<RecipeDefinition>, r: RecipeDefinition)
    ensures ItemsOf(recipes + [r]) == ItemsOf(recipes) + RecipeItems(r)
  {
    assert forall x <- recipes :: x in recipes + [r];
    assert r in recipes + [r];
  }

  lemma LinksIsAdjacent(d: Draft, items: set<Id>, graph: Graph)
    requires Links(graph, items + ItemsOf(d.recipes), d.recipes)
    ensures graph == Adjacent(d, items)
  {
    forall a | a in graph ensures graph[a] == Adjacent(d, items)[a] {
      forall b ensures b in graph[a] <==> b in Adjacent(d, items)[a] {
        assert Edge(graph, a, b) <==> Linked(d.recipes, a, b);
      }
    }
  }

  // ---- Components ----

  /** What a depth-first search keeps: it stays in the component, and every edge leads to what is found or pending. */
  ghost predicate Searching(graph: Graph, first: Id, component: set<Id>, pending: seq<Id>) {
    && component <= graph.Keys
    && (forall x <- pending :: x in graph)
    && (first in component || first in pending)
    && (forall a <- component, b <- graph[a] :: b in component || b in pending)
    && forall s: set<Id> :: first in s && Stable(graph, s) ==> component <= s && forall x <- pending :: x in s
  }

  lemma SearchVisit(graph: Graph, first: Id, component: set<Id>, pending: seq<Id>, rest: seq<Id>, item: Id)
    requires Stable(graph, graph.Keys) && Searching(graph, first, component, pending)
    requires pending == rest + [item]
    ensures item in component ==> Searching(graph, first, component, rest)
    ensures item !in component ==> Searching(graph, first, component + {item}, rest + SortedKeys(graph[item]))
  {
    if item !in component {
      var next := rest + SortedKeys(graph[item]);
      forall s: set<Id> | first in s && Stable(graph, s) ensures component + {item} <= s && forall x <- next :: x in s {
        assert item in s;
      }
      forall a, b | a in component + {item} && b in graph[a] ensures b in component + {item} || b in next {
        if a != item {
          assert b in component || b in pending;
        }
      }
    }
  }

  lemma SearchDone(graph: Graph, first: Id, component: set<Id>)
    requires Searching(graph, first, component, [])
    ensures Stable(graph, component) && component == Component(graph, first)
  {
    forall a | a in component ensures a in graph && graph[a] <= component {
    }
    assert component <= Component(graph, first);
    assert Component(graph, first) <= component;
  }

  /** Depth-first search from a vertex finds exactly its component. */
  method FindComponent(graph: Graph, first: Id) returns (component: set<Id>)
    requires first in graph && Stable(graph, graph.Keys)
    ensures component == Component(graph, first)
    ensures first in component && Stable(graph, component)
  {
    component := {};
    var pending := [first];
    while pending != []
      invariant Searching(graph, first, component, pending)
      decreases |graph.Keys - component|, |pending|
    {
      var item, rest := pending[|pending| - 1], pending[..|pending| - 1];
      SearchVisit(graph, first, component, pending, rest, item);
      if item in component {
        pending := rest;
        continue;
      }
      assert graph.Keys - (component + {item}) == graph.Keys - component - {item};
      component := component + {item};
      pending := rest + SortedKeys(graph[item]);
    }
    SearchDone(graph, first, component);
  }

  lemma AdjacentStable(d: Draft, items: set<Id>)
    ensures Adjacent(d, items).Keys == Vertices(d, items)
    ensures Stable(Adjacent(d, items), Vertices(d, items))
  {
  }

  /** A component of the link graph never cuts a recipe. */
  lemma StableIsClosed(d: Draft, items: set<Id>, component: set<Id>)
    requires AllConsume(d.recipes) && Stable(Adjacent(d, items), component)
    ensures Closed(d, component)
  {
    forall r | r in d.recipes && !(RecipeItems(r) !! component)
      ensures Touches(r, component) && RecipeItems(r) <= component
    {
      var x :| x in RecipeItems(r) && x in component;
      var first := Least(r.inputs.Keys);
      assert LinkedBy(r, x, first);
      assert first in Adjacent(d, items)[x];
      forall item | item in RecipeItems(r) ensures item in component {
        assert LinkedBy(r, first, item);
        assert item in Adjacent(d, items)[first];
      }
    }
  }

  // ---- Adding up ----

  lemma LineWordsUnion(d: Draft, s: set<Id>, t: set<Id>, shown: set<Id>)
    ensures LineWords(d, (s + t) * shown) <= LineWords(d, s * shown) + LineWords(d, t * shown)
    ensures s <= t ==> LineWords(d, s * shown) <= LineWords(d, t * shown)
  {
    assert (s + t) * shown == s * shown + t * shown;
    SumUnion(s * shown, t * shown, LineCost(d.labels.items));
    if s <= t {
      SumSubset(s * shown, t * shown, LineCost(d.labels.items));
    }
  }

  lemma BoundsUnion(d: Draft, s: set<Id>, t: set<Id>, v: nat, w: nat)
    requires Bounds(d, s, v) && Bounds(d, t, w)
    ensures Bounds(d, s + t, v + w)
  {
    forall carried, log, h | Reaches(d, carried, log, h)
      ensures LineWords(d, (s + t) * CarriedItems(h)) <= v + w
    {
      LineWordsUnion(d, s, t, CarriedItems(h));
    }
  }

  lemma BoundsSubset(d: Draft, s: set<Id>, t: set<Id>, w: nat)
    requires s <= t && Bounds(d, t, w)
    ensures Bounds(d, s, w)
  {
    forall carried, log, h | Reaches(d, carried, log, h) ensures LineWords(d, s * CarriedItems(h)) <= w {
      LineWordsUnion(d, s, t, CarriedItems(h));
    }
  }

  lemma BoundsEmpty(d: Draft)
    ensures Bounds(d, {}, 0)
  {
    forall carried, log, h | Reaches(d, carried, log, h) ensures LineWords(d, {} * CarriedItems(h)) <= 0 {
      assert {} * CarriedItems(h) == {};
    }
  }

  /** One component's words: the conservation bound, or the closure's maximum where the search can finish below it. */
  ghost function ComponentBound(d: Draft, component: set<Id>, closure: Option<ClosureBudget>): nat {
    if closure.Some? && Conserved(d, component) && Searchable(d, component, closure.value)
    then Min(ConservationBound(d, component), ClosureMaximum(d, component))
    else ConservationBound(d, component)
  }

  /** The bounds of all components, each counted at its first vertex in key order. */
  ghost function SumComponents(d: Draft, graph: Graph, keys: seq<Id>, visited: set<Id>, closure: Option<ClosureBudget>): nat {
    if keys == [] then 0
    else if keys[0] in visited then SumComponents(d, graph, keys[1..], visited, closure)
    else
      var component := Component(graph, keys[0]);
      ComponentBound(d, component, closure) + SumComponents(d, graph, keys[1..], visited + component, closure)
  }

  /** The words of the items, component by component. */
  ghost function WordsWith(d: Draft, items: set<Id>, closure: Option<ClosureBudget>): nat {
    if AllConsume(d.recipes)
    then SumComponents(d, Adjacent(d, items), SortedKeys(Vertices(d, items)), {}, closure)
    else LineWords(d, items)
  }

  method ComponentWords(d: Draft, component: set<Id>, closure: Option<ClosureBudget>) returns (words: nat)
    ensures words == ComponentBound(d, component, closure)
  {
    words := ConservationBound(d, component);
    if Conserved(d, component) && closure.Some? {
      var refined := ClosedComponentWords(d, component, closure.value);
      if refined.Some? {
        LargestUnique(d, Touching(d.recipes, component), Pooled(d, component), refined.value, ClosureMaximum(d, component));
        words := Min(words, refined.value);
      }
    }
  }

  method SumComponentWords(d: Draft, graph: Graph, closure: Option<ClosureBudget>) returns (total: nat)
    requires Stable(graph, graph.Keys)
    ensures total == SumComponents(d, graph, SortedKeys(graph.Keys), {}, closure)
  {
    hide ComponentBound, Component, Stable, SortedKeys;
    var left := SortedKeys(graph.Keys);
    ghost var whole := SumComponents(d, graph, left, {}, closure);
    var visited: set<Id> := {};
    total := 0;
    while left != []
      invariant forall k <- left :: k in graph
      invariant total + SumComponents(d, graph, left, visited, closure) == whole
      decreases |left|
    {
      if left[0] !in visited {
        var component := FindComponent(graph, left[0]);
        var words := ComponentWords(d, component, closure);
        visited, total := visited + component, total + words;
      }
      left := left[1..];
    }
  }

  predicate AllConsume(recipes: seq<RecipeDefinition>) {
    forall r <- recipes :: r.inputs != map[]
  }

  /** item_words_with_closure: the bounds of the components of the link graph, or every line if a recipe consumes nothing. */
  method ItemWordsWithClosure(d: Draft, items: set<Id>, closure: Option<ClosureBudget>) returns (total: nat)
    ensures total == WordsWith(d, items, closure)
  {
    hide SumComponents;
    var graph := BuildAdjacency(d, items);
    if graph.None? {
      return LineWords(d, items);
    }
    AdjacentStable(d, items);
    total := SumComponentWords(d, graph.value, closure);
  }

  /** tighter_potential_item_words: the smaller of the two bounds, which is the refined one. */
  method TighterPotentialItemWords(d: Draft, items: set<Id>) returns (words: nat)
    ensures words == WordsWith(d, items, Some(DEFAULT_BUDGET))
  {
    var fallback := ItemWordsWithClosure(d, items, None);
    var refined := ItemWordsWithClosure(d, items, Some(DEFAULT_BUDGET));
    RefinedAtMostFallback(d, items, Some(DEFAULT_BUDGET));
    words := Min(fallback, refined);
  }

  lemma {:induction false} SumAtMostFallback(
    d: Draft, graph: Graph, keys: seq<Id>, visited: set<Id>, closure: Option<ClosureBudget>)
    ensures SumComponents(d, graph, keys, visited, closure) <= SumComponents(d, graph, keys, visited, None)
    decreases |keys|
  {
    hide Component, ConservationBound, Searchable, ClosureMaximum, Conserved;
    if keys != [] {
      SumAtMostFallback(d, graph, keys[1..], visited, closure);
      SumAtMostFallback(d, graph, keys[1..], visited + Component(graph, keys[0]), closure);
    }
  }

  /** A search never raises the bound; one that cannot finish changes nothing. */
  lemma RefinedAtMostFallback(d: Draft, items: set<Id>, closure: Option<ClosureBudget>)
    ensures WordsWith(d, items, closure) <= WordsWith(d, items, None)
  {
    hide SumComponents;
    SumAtMostFallback(d, Adjacent(d, items), SortedKeys(Vertices(d, items)), {}, closure);
  }

  // ---- Soundness ----

  lemma ComponentSound(d: Draft, component: set<Id>, closure: Option<ClosureBudget>)
    requires StructureValid(d) && Closed(d, component)
    ensures Bounds(d, component, ComponentBound(d, component, closure))
  {
    hide StructureValid, Closed, Conserved, Searchable, Bounds, LargestReachable, ConservationBound;
    ConservationSound(d, component);
    if closure.Some? && Searchable(d, component, closure.value) {
      SearchableHasLargest(d, component, closure.value);
      ClosureSound(d, component, ClosureMaximum(d, component));
    }
  }

  /** A component is stable: searching it can only find itself. */
  lemma ComponentStable(graph: Graph, first: Id)
    requires first in graph && Stable(graph, graph.Keys)
    ensures first in Component(graph, first) && Stable(graph, Component(graph, first))
  {
    var component := Component(graph, first);
    forall a | a in component ensures graph[a] <= component {
      forall b | b in graph[a] ensures b in component {
        forall s: set<Id> | first in s && Stable(graph, s) ensures b in s {
          assert a in s;
        }
      }
    }
  }

  /** The components counted from a state of the walk on. */
  ghost function Counted(graph: Graph, keys: seq<Id>, visited: set<Id>): set<Id> {
    if keys == [] then {}
    else if keys[0] in visited then Counted(graph, keys[1..], visited)
    else Component(graph, keys[0]) + Counted(graph, keys[1..], visited + Component(graph, keys[0]))
  }

  lemma {:induction false} AllCounted(graph: Graph, keys: seq<Id>, visited: set<Id>)
    requires Stable(graph, graph.Keys) && forall k <- keys :: k in graph
    ensures forall k <- keys :: k in visited + Counted(graph, keys, visited)
    decreases |keys|
  {
    hide Component, Stable;
    if keys != [] {
      assert keys == [keys[0]] + keys[1..];
      ComponentStable(graph, keys[0]);
      AllCounted(graph, keys[1..], if keys[0] in visited then visited else visited + Component(graph, keys[0]));
    }
  }

  lemma {:induction false} SumSound(d: Draft, items: set<Id>, keys: seq<Id>, visited: set<Id>, closure: Option<ClosureBudget>)
    requires StructureValid(d) && AllConsume(d.recipes) && forall k <- keys :: k in Vertices(d, items)
    ensures Bounds(d, Counted(Adjacent(d, items), keys, visited), SumComponents(d, Adjacent(d, items), keys, visited, closure))
    decreases |keys|
  {
    hide StructureValid, AllConsume, Component, Stable, ComponentBound, Bounds, Adjacent, Vertices;
    var graph := Adjacent(d, items);
    if keys == [] {
      BoundsEmpty(d);
    } else if keys[0] in visited {
      SumSound(d, items, keys[1..], visited, closure);
    } else {
      var component := Component(graph, keys[0]);
      AdjacentStable(d, items);
      ComponentStable(graph, keys[0]);
      StableIsClosed(d, items, component);
      ComponentSound(d, component, closure);
      SumSound(d, items, keys[1..], visited + component, closure);
      BoundsUnion(d, component, Counted(graph, keys[1..], visited + component), ComponentBound(d, component, closure),
                  SumComponents(d, graph, keys[1..], visited + component, closure));
    }
  }

  /** Whatever the search budget, the words bound what any run can show of the items. */
  lemma ItemWordsSound(d: Draft, items: set<Id>, closure: Option<ClosureBudget>)
    requires StructureValid(d)
    ensures Bounds(d, items, WordsWith(d, items, closure))
  {
    hide StructureValid, SumComponents, Counted, Stable, Adjacent, Bounds;
    RecipesConsume(d);
    var graph, keys := Adjacent(d, items), SortedKeys(Vertices(d, items));
    AdjacentStable(d, items);
    AllCounted(graph, keys, {});
    SumSound(d, items, keys, {}, closure);
    assert items <= Counted(graph, keys, {}) by {
      assert forall k <- keys :: k in {} + Counted(graph, keys, {});
    }
    BoundsSubset(d, items, Counted(graph, keys, {}), WordsWith(d, items, closure));
  }

  lemma RecipesConsume(d: Draft)
    requires StructureValid(d)
    ensures AllConsume(d.recipes)
  {
  }
}

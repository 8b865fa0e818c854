// The exhaustive closure of a conserved component over pooled stock (closed_component_words).
module SupplyClosure {
  import opened Basics
  import opened Model
  import opened Content
  import opened Effects
  import opened Kernel
  import opened Ownership
  import opened Validation
  import opened Sums
  import opened GenesisBudget
  import opened SupplyBudget
  import LineageRuns

  /** Units of every item of the component, over all owners together. */
  type Pool = map<Id, nat>

  datatype ClosureBudget = ClosureBudget(states: nat, attempts: nat)

  const DEFAULT_BUDGET := ClosureBudget(4096, 65536)

  /** Pooled genesis stock; None if a count leaves u64. */
  function PooledGenesis(d: Draft, component: set<Id>): Option<Pool> {
    if exists item <- component :: GenesisBound(d, CountOf(item)) > U64_MAX then None
    else Some(Pooled(d, component))
  }

  function Pooled(d: Draft, component: set<Id>): Pool {
    map item | item in component :: GenesisBound(d, CountOf(item))
  }

  function InPool(p: Pool, item: Id): nat {
    if item in p then p[item] else 0
  }

  predicate Affordable(p: Pool, r: RecipeDefinition) {
    forall item <- r.inputs :: r.inputs[item] <= InPool(p, item)
  }

  function FirePool(p: Pool, r: RecipeDefinition): Pool
    requires Affordable(p, r)
  {
    map item <- p :: p[item] - Count(r.inputs, item) + Count(r.outputs, item)
  }

  function Shown(p: Pool): set<Id> {
    set item | item in p && p[item] > 0
  }

  function PoolWords(d: Draft, p: Pool): nat {
    LineWords(d, Shown(p))
  }

  // ---- Pools the recipes can reach ----

  /** Fire recipes one after another from the pool; None when one is not affordable. */
  function RunPool(p: Pool, fired: seq<RecipeDefinition>): Option<Pool> {
    if fired == [] then Some(p)
    else
      var earlier := RunPool(p, fired[..|fired| - 1]);
      if earlier.None? || !Affordable(earlier.value, fired[|fired| - 1]) then None
      else Some(FirePool(earlier.value, fired[|fired| - 1]))
  }

  ghost predicate PoolReaches(recipes: seq<RecipeDefinition>, p: Pool, q: Pool) {
    exists fired :: (forall r <- fired :: r in recipes) && RunPool(p, fired) == Some(q)
  }

  /** w is the largest number of words any reachable pool shows. */
  ghost predicate LargestReachable(d: Draft, recipes: seq<RecipeDefinition>, p: Pool, w: nat) {
    && (forall q :: PoolReaches(recipes, p, q) ==> PoolWords(d, q) <= w)
    && exists q :: PoolReaches(recipes, p, q) && PoolWords(d, q) == w
  }

  function Touching(recipes: seq<RecipeDefinition>, component: set<Id>): seq<RecipeDefinition> {
    if recipes == [] then []
    else
      var rest := Touching(recipes[..|recipes| - 1], component);
      if Touches(recipes[|recipes| - 1], component) then rest + [recipes[|recipes| - 1]] else rest
  }

  lemma {:induction false} TouchingMembers(recipes: seq<RecipeDefinition>, component: set<Id>)
    ensures forall r :: r in Touching(recipes, component) <==> r in recipes && Touches(r, component)
    decreases |recipes|
  {
    if recipes != [] {
      TouchingMembers(recipes[..|recipes| - 1], component);
      assert recipes == recipes[..|recipes| - 1] + [recipes[|recipes| - 1]];
    }
  }

  /** A set of pools that every affordable recipe stays inside. */
  predicate ClosedUnder(recipes: seq<RecipeDefinition>, seen: set<Pool>) {
    forall p <- seen, r <- recipes :: Affordable(p, r) ==> FirePool(p, r) in seen
  }

  lemma {:induction false} ClosedContains(recipes: seq<RecipeDefinition>, seen: set<Pool>, p: Pool, fired: seq<RecipeDefinition>)
    requires ClosedUnder(recipes, seen) && p in seen
    requires (forall r <- fired :: r in recipes) && RunPool(p, fired).Some?
    ensures RunPool(p, fired).value in seen
    decreases |fired|
  {
    if fired != [] {
      ClosedContains(recipes, seen, p, fired[..|fired| - 1]);
      assert fired[|fired| - 1] in recipes;
    }
  }

  lemma ReachesItself(recipes: seq<RecipeDefinition>, p: Pool)
    ensures PoolReaches(recipes, p, p)
  {
    assert RunPool(p, []) == Some(p);
  }

  lemma ReachesNext(recipes: seq<RecipeDefinition>, p: Pool, q: Pool, r: RecipeDefinition)
    requires PoolReaches(recipes, p, q) && r in recipes && Affordable(q, r)
    ensures PoolReaches(recipes, p, FirePool(q, r))
  {
    var fired :| (forall x <- fired :: x in recipes) && RunPool(p, fired) == Some(q);
    var longer := fired + [r];
    assert longer[..|longer| - 1] == fired;
    assert RunPool(p, longer) == Some(FirePool(q, r));
  }

  // ---- The worklist ----

  /** What the search knows: pools seen, pools still to expand, and the largest readout expanded so far. */
  datatype Search = Search(seen: set<Pool>, pending: seq<Pool>, maximum: nat)

  ghost predicate Expanded(d: Draft, recipes: seq<RecipeDefinition>, x: Search, p: Pool) {
    && PoolWords(d, p) <= x.maximum
    && forall r <- recipes :: Affordable(p, r) ==> FirePool(p, r) in x.seen
  }

  ghost predicate SearchInvariant(d: Draft, recipes: seq<RecipeDefinition>, start: Pool, x: Search) {
    && start in x.seen
    && (forall p <- x.pending :: p in x.seen)
    && (forall p <- x.seen :: PoolReaches(recipes, start, p))
    && (forall p <- x.seen :: p in x.pending || Expanded(d, recipes, x, p))
    && (x.maximum == 0 || exists p :: p in x.seen && PoolWords(d, p) == x.maximum)
  }

  predicate Successor(recipes: seq<RecipeDefinition>, p: Pool, q: Pool) {
    exists r <- recipes :: Affordable(p, r) && q == FirePool(p, r)
  }

  predicate FitsU64(p: Pool) {
    forall item <- p :: p[item] <= U64_MAX
  }

  predicate NoRepeats(pools: seq<Pool>) {
    forall i, j :: 0 <= i < j < |pools| ==> pools[i] != pools[j]
  }

  predicate OutOfRange(recipes: seq<RecipeDefinition>, p: Pool) {
    exists r <- recipes :: Affordable(p, r) && !FitsU64(FirePool(p, r))
  }

  predicate FoundFrom(recipes: seq<RecipeDefinition>, seen: set<Pool>, p: Pool, found: set<Pool>) {
    forall q <- found :: q in seen || Successor(recipes, p, q)
  }

  /** The pools found are already too many. */
  ghost predicate OutOfStates(recipes: seq<RecipeDefinition>, seen: set<Pool>, p: Pool, budget: ClosureBudget) {
    exists found: set<Pool> :: |found| > budget.states && FoundFrom(recipes, seen, p, found)
  }

  /** Try every recipe on one pool; none when attempts or states run out, or a count leaves u64. */
  method Expand(recipes: seq<RecipeDefinition>, p: Pool, x: Search, attempts: nat, budget: ClosureBudget)
    returns (next: Option<Search>, used: nat)
    requires |x.seen| <= budget.states && (forall q <- x.pending :: q in x.seen) && NoRepeats(x.pending)
    ensures next.Some? ==> used == attempts + |recipes| && (attempts <= budget.attempts ==> used <= budget.attempts)
    ensures next.Some? ==> NoRepeats(next.value.pending) && forall q <- next.value.seen - x.seen :: FitsU64(q)
    ensures next.None? ==>
      || budget.attempts < used <= attempts + |recipes|
      || OutOfRange(recipes, p)
      || OutOfStates(recipes, x.seen, p, budget)
    ensures next.Some? ==> x.seen <= next.value.seen && |next.value.seen| <= budget.states
    ensures next.Some? ==> next.value.maximum == x.maximum
    ensures next.Some? ==> forall r <- recipes :: Affordable(p, r) ==> FirePool(p, r) in next.value.seen
    ensures next.Some? ==> forall q <- next.value.seen - x.seen ::
      q in next.value.pending && Successor(recipes, p, q)
    ensures next.Some? ==> x.pending <= next.value.pending
    ensures next.Some? ==> forall q <- next.value.pending :: q in x.pending || q in next.value.seen - x.seen
    ensures next.Some? && next.value.seen == x.seen ==> next.value.pending == x.pending
  {
    used := attempts;
    var y := x;
    for i := 0 to |recipes|
      invariant x.seen <= y.seen && |y.seen| <= budget.states && y.maximum == x.maximum
      invariant forall j :: 0 <= j < i && Affordable(p, recipes[j]) ==> FirePool(p, recipes[j]) in y.seen
      invariant forall q <- y.seen - x.seen ::
        q in y.pending && Successor(recipes, p, q)
      invariant x.pending <= y.pending
      invariant forall q <- y.pending :: q in x.pending || q in y.seen - x.seen
      invariant y.seen == x.seen ==> y.pending == x.pending
      invariant used == attempts + i && (attempts <= budget.attempts ==> used <= budget.attempts)
      invariant NoRepeats(y.pending) && forall q <- y.seen - x.seen :: FitsU64(q)
    {
      used := used + 1;
      if used > budget.attempts {
        return None, used;
      }
      if !Affordable(p, recipes[i]) {
        continue;
      }
      var q := FirePool(p, recipes[i]);
      assert recipes[i] in recipes && Successor(recipes, p, q);
      if !FitsU64(q) {
        return None, used;
      }
      if q !in y.seen {
        if |y.seen| >= budget.states {
          ghost var found := y.seen + {q};
          assert |found| > budget.states && FoundFrom(recipes, x.seen, p, found);
          return None, used;
        }
        y := y.(seen := y.seen + {q}, pending := y.pending + [q]);
      }
    }
    return Some(y), used;
  }

  lemma PoppedKeepsInvariant(d: Draft, recipes: seq<RecipeDefinition>, start: Pool, x: Search, p: Pool, y: Search)
    requires SearchInvariant(d, recipes, start, x)
    requires x.pending != [] && p == x.pending[|x.pending| - 1]
    requires x.seen <= y.seen && y.maximum == Max(x.maximum, PoolWords(d, p))
    requires x.pending[..|x.pending| - 1] <= y.pending
    requires forall r <- recipes :: Affordable(p, r) ==> FirePool(p, r) in y.seen
    requires forall q <- y.seen - x.seen :: q in y.pending && Successor(recipes, p, q)
    requires forall q <- y.pending :: q in x.pending[..|x.pending| - 1] || q in y.seen - x.seen
    ensures SearchInvariant(d, recipes, start, y)
  {
    hide PoolWords, Affordable, PoolReaches;
    var rest := x.pending[..|x.pending| - 1];
    assert x.pending == rest + [p];
    assert p in x.seen;
    forall q | q in y.seen
      ensures PoolReaches(recipes, start, q)
      ensures q in y.pending || Expanded(d, recipes, y, q)
    {
      if q in x.seen {
        if q in rest {
          assert q in y.pending;
        } else {
          assert Expanded(d, recipes, y, q);
        }
      } else {
        assert q in y.seen - x.seen;
        var r :| r in recipes && Affordable(p, r) && q == FirePool(p, r);
        ReachesNext(recipes, start, p, r);
      }
    }
    if y.maximum != 0 {
      assert exists q :: q in y.seen && PoolWords(d, q) == y.maximum by {
        if y.maximum == PoolWords(d, p) {
          assert p in y.seen;
        }
      }
    }
  }

  lemma ExhaustedIsLargest(d: Draft, recipes: seq<RecipeDefinition>, start: Pool, x: Search)
    requires SearchInvariant(d, recipes, start, x) && x.pending == []
    ensures LargestReachable(d, recipes, start, x.maximum)
  {
    assert forall p <- x.seen :: Expanded(d, recipes, x, p);
    forall q | PoolReaches(recipes, start, q) ensures PoolWords(d, q) <= x.maximum {
      var fired :| (forall r <- fired :: r in recipes) && RunPool(start, fired) == Some(q);
      ClosedContains(recipes, x.seen, start, fired);
    }
    ReachesItself(recipes, start);
  }

  /** Every touching recipe can be indexed inside the component. */
  predicate Indexed(recipes: seq<RecipeDefinition>, component: set<Id>) {
    forall r <- recipes :: RecipeItems(r) <= component
  }

  // ---- When the search finishes ----

  /** The reachable pools, if there are finitely many. */
  ghost predicate Exhausts(recipes: seq<RecipeDefinition>, start: Pool, pools: set<Pool>) {
    && start in pools && ClosedUnder(recipes, pools)
    && forall p <- pools :: PoolReaches(recipes, start, p)
  }

  ghost predicate Affords(recipes: seq<RecipeDefinition>, pools: set<Pool>, budget: ClosureBudget) {
    && |pools| <= budget.states && |pools| * |recipes| <= budget.attempts
    && forall p <- pools :: FitsU64(p)
  }

  /** The component is closed, its pools are u64, and the budget covers trying every recipe on every reachable pool. */
  ghost predicate Searchable(d: Draft, component: set<Id>, budget: ClosureBudget) {
    && Indexed(Touching(d.recipes, component), component)
    && PooledGenesis(d, component).Some?
    && exists pools :: Exhausts(Touching(d.recipes, component), Pooled(d, component), pools)
                       && Affords(Touching(d.recipes, component), pools, budget)
  }

  lemma ReachableAreExhausted(recipes: seq<RecipeDefinition>, start: Pool, pools: set<Pool>, p: Pool)
    requires Exhausts(recipes, start, pools) && PoolReaches(recipes, start, p)
    ensures p in pools
  {
    var fired :| (forall r <- fired :: r in recipes) && RunPool(start, fired) == Some(p);
    ClosedContains(recipes, pools, start, fired);
  }

  /** How far the search is: the pools expanded, each of them once and with every recipe. */
  ghost predicate Progress(recipes: seq<RecipeDefinition>, x: Search, done: set<Pool>, attempts: nat, budget: ClosureBudget) {
    && NoRepeats(x.pending) && |x.seen| <= budget.states
    && x.seen == done + (set p <- x.pending)
    && done !! (set p <- x.pending)
    && attempts == |done| * |recipes| <= budget.attempts
    && forall p <- x.seen :: FitsU64(p)
  }

  lemma PoppedIsNew(recipes: seq<RecipeDefinition>, x: Search, done: set<Pool>, attempts: nat, budget: ClosureBudget)
    requires Progress(recipes, x, done, attempts, budget) && x.pending != []
    ensures x.pending[|x.pending| - 1] in x.seen && x.pending[|x.pending| - 1] !in done && done <= x.seen
  {
    assert x.pending[|x.pending| - 1] in x.pending;
  }

  lemma ProgressNext(
    recipes: seq<RecipeDefinition>, x: Search, done: set<Pool>, attempts: nat, budget: ClosureBudget, p: Pool, y: Search)
    requires Progress(recipes, x, done, attempts, budget) && x.pending != [] && p == x.pending[|x.pending| - 1]
    requires NoRepeats(y.pending) && x.seen <= y.seen && |y.seen| <= budget.states
    requires attempts + |recipes| <= budget.attempts
    requires x.pending[..|x.pending| - 1] <= y.pending
    requires forall q <- y.seen - x.seen :: q in y.pending && FitsU64(q)
    requires forall q <- y.pending :: q in x.pending[..|x.pending| - 1] || q in y.seen - x.seen
    ensures Progress(recipes, y, done + {p}, attempts + |recipes|, budget)
  {
    var rest := x.pending[..|x.pending| - 1];
    assert x.pending == rest + [p] && p in x.pending && p !in rest;
    assert p !in done && p in x.seen && p !in y.pending;
    assert |done + {p}| == |done| + 1;
    assert (|done| + 1) * |recipes| == |done| * |recipes| + |recipes|;
    forall q ensures q in y.seen <==> q in done + {p} || q in y.pending {
      if q in y.seen && q !in x.seen {
        assert q in y.seen - x.seen;
      }
    }
    forall q | q in y.pending ensures q !in done {
      if q in rest {
        assert q in x.pending;
      }
    }
  }

  ghost predicate FindsWithin(recipes: seq<RecipeDefinition>, seen: set<Pool>, p: Pool, pools: set<Pool>) {
    seen <= pools && forall q :: Successor(recipes, p, q) ==> q in pools
  }

  /** What one expansion finds is inside every exhaustion. */
  lemma FoundInside(
    d: Draft, recipes: seq<RecipeDefinition>, start: Pool, x: Search, p: Pool, pools: set<Pool>)
    requires SearchInvariant(d, recipes, start, x) && p in x.seen && Exhausts(recipes, start, pools)
    ensures x.seen <= pools && FindsWithin(recipes, x.seen, p, pools)
  {
    hide FitsU64, Affordable, PoolWords;
    forall q | q in x.seen ensures q in pools {
      ReachableAreExhausted(recipes, start, pools, q);
    }
  }

  /** A search that stopped early could not have finished. */
  lemma StoppedEarly(
    d: Draft, component: set<Id>, budget: ClosureBudget, x: Search, done: set<Pool>, attempts: nat, p: Pool, used: nat)
    requires SearchInvariant(d, Touching(d.recipes, component), Pooled(d, component), x) && p in x.seen
    requires done <= x.seen && p !in done && attempts == |done| * |Touching(d.recipes, component)|
    requires || budget.attempts < used <= attempts + |Touching(d.recipes, component)|
             || OutOfRange(Touching(d.recipes, component), p)
             || OutOfStates(Touching(d.recipes, component), x.seen, p, budget)
    ensures !Searchable(d, component, budget)
  {
    hide Pooled, FitsU64, Affordable, PooledGenesis, Touching, Exhausts, Successor, SearchInvariant, OutOfRange, OutOfStates,
         Affords, FindsWithin;
    var recipes, start := Touching(d.recipes, component), Pooled(d, component);
    forall pools | Exhausts(recipes, start, pools) ensures !Affords(recipes, pools, budget) {
      FoundInside(d, recipes, start, x, p, pools);
      if OutOfRange(recipes, p) || OutOfStates(recipes, x.seen, p, budget) {
        FoundTooMuch(recipes, x.seen, p, pools, budget);
      } else {
        TriedTooMuch(recipes, done, p, pools, budget);
      }
    }
  }

  lemma FoundTooMuch(recipes: seq<RecipeDefinition>, seen: set<Pool>, p: Pool, pools: set<Pool>, budget: ClosureBudget)
    requires FindsWithin(recipes, seen, p, pools)
    requires OutOfRange(recipes, p) || OutOfStates(recipes, seen, p, budget)
    ensures !Affords(recipes, pools, budget)
  {
    hide FitsU64;
    if OutOfStates(recipes, seen, p, budget) {
      var found: set<Pool> :| |found| > budget.states && FoundFrom(recipes, seen, p, found);
      assert found <= pools;
      GrownOrSame(found, pools);
    } else {
      var r :| r in recipes && Affordable(p, r) && !FitsU64(FirePool(p, r));
      assert Successor(recipes, p, FirePool(p, r));
    }
  }

  lemma TriedTooMuch(recipes: seq<RecipeDefinition>, done: set<Pool>, p: Pool, pools: set<Pool>, budget: ClosureBudget)
    requires done <= pools && p in pools && p !in done
    requires budget.attempts < |done| * |recipes| + |recipes|
    ensures !Affords(recipes, pools, budget)
  {
    hide FitsU64;
    GrownOrSame(done + {p}, pools);
    assert |done + {p}| == |done| + 1;
    TimesMonotone(|done| + 1, |pools|, |recipes|);
  }

  lemma TimesMonotone(a: nat, b: nat, n: nat)
    requires a <= b
    ensures a * n <= b * n
  {
  }

  lemma Finished(d: Draft, component: set<Id>, budget: ClosureBudget, x: Search, done: set<Pool>, attempts: nat)
    requires var recipes := Touching(d.recipes, component);
             && Indexed(recipes, component) && PooledGenesis(d, component).Some?
             && SearchInvariant(d, recipes, Pooled(d, component), x) && Progress(recipes, x, done, attempts, budget)
             && x.pending == []
    ensures Searchable(d, component, budget)
  {
    var recipes := Touching(d.recipes, component);
    assert x.seen == done;
    assert forall p <- x.seen :: Expanded(d, recipes, x, p);
    assert Exhausts(recipes, Pooled(d, component), x.seen) && Affords(recipes, x.seen, budget);
  }

  // ---- The maximum the search is for ----

  lemma LargestUnique(d: Draft, recipes: seq<RecipeDefinition>, p: Pool, v: nat, w: nat)
    requires LargestReachable(d, recipes, p, v) && LargestReachable(d, recipes, p, w)
    ensures v == w
  {
  }

  lemma {:induction false} LargestOf(d: Draft, pools: set<Pool>) returns (best: Pool)
    requires pools != {}
    ensures best in pools && forall p <- pools :: PoolWords(d, p) <= PoolWords(d, best)
    decreases |pools|
  {
    hide PoolWords;
    best :| best in pools;
    var rest := pools - {best};
    if rest != {} {
      var other := LargestOf(d, rest);
      if PoolWords(d, best) < PoolWords(d, other) {
        best := other;
      }
    }
  }

  /** A component that can be searched has a largest reachable readout. */
  lemma SearchableHasLargest(d: Draft, component: set<Id>, budget: ClosureBudget)
    requires Searchable(d, component, budget)
    ensures exists w :: LargestReachable(d, Touching(d.recipes, component), Pooled(d, component), w)
  {
    hide PoolWords, Pooled, Touching;
    var recipes, start := Touching(d.recipes, component), Pooled(d, component);
    var pools :| Exhausts(recipes, start, pools) && Affords(recipes, pools, budget);
    var best := LargestOf(d, pools);
    forall q | PoolReaches(recipes, start, q) ensures PoolWords(d, q) <= PoolWords(d, best) {
      ReachableAreExhausted(recipes, start, pools, q);
    }
    assert LargestReachable(d, recipes, start, PoolWords(d, best));
  }

  /** The largest readout of a reachable pool, where there is one. */
  ghost function ClosureMaximum(d: Draft, component: set<Id>): nat {
    if w: nat :| LargestReachable(d, Touching(d.recipes, component), Pooled(d, component), w) then w else 0
  }

  /** An answer is the exact maximum over every reachable pool, and there is one exactly when the budget covers the search. */
  method ClosedComponentWords(d: Draft, component: set<Id>, budget: ClosureBudget) returns (words: Option<nat>)
    ensures words.Some? ==> LargestReachable(d, Touching(d.recipes, component), Pooled(d, component), words.value)
    ensures words.Some? <==> Searchable(d, component, budget)
  {
    hide FitsU64, PoolWords, Pooled, Indexed;
    var recipes := Touching(d.recipes, component);
    var initial := PooledGenesis(d, component);
    if !Indexed(recipes, component) || initial.None? || 1 > budget.states {
      return None;
    }
    var start := initial.value;
    var x := Search({start}, [start], 0);
    var attempts := 0;
    ghost var done: set<Pool> := {};
    ReachesItself(recipes, start);
    PooledFits(d, component);
    while x.pending != []
      invariant SearchInvariant(d, recipes, start, x) && Progress(recipes, x, done, attempts, budget)
      decreases budget.states - |x.seen|, |x.pending|
    {
      var p := x.pending[|x.pending| - 1];
      var popped := Search(x.seen, x.pending[..|x.pending| - 1], Max(x.maximum, PoolWords(d, p)));
      var next, used := Expand(recipes, p, popped, attempts, budget);
      if next.None? {
        PoppedIsNew(recipes, x, done, attempts, budget);
        StoppedEarly(d, component, budget, x, done, attempts, p, used);
        return None;
      }
      PoppedKeepsInvariant(d, recipes, start, x, p, next.value);
      ProgressNext(recipes, x, done, attempts, budget, p, next.value);
      GrownOrSame(x.seen, next.value.seen);
      x, attempts, done := next.value, used, done + {p};
    }
    ExhaustedIsLargest(d, recipes, start, x);
    Finished(d, component, budget, x, done, attempts);
    return Some(x.maximum);
  }

  lemma PooledFits(d: Draft, component: set<Id>)
    requires PooledGenesis(d, component).Some?
    ensures PooledGenesis(d, component).value == Pooled(d, component) && FitsU64(Pooled(d, component))
  {
  }

  lemma GrownOrSame<T>(s: set<T>, t: set<T>)
    requires s <= t
    ensures s == t || |s| < |t|
  {
    if s != t {
      assert t == s + (t - s) && t - s != {};
    }
  }

  // ---- Pooled stock dominates every run ----

  ghost predicate Dominates(p: Pool, component: set<Id>, h: Holdings) {
    p.Keys == component && forall item <- component :: Total(h, item) <= p[item]
  }

  lemma DominatesFired(p: Pool, component: set<Id>, h: Holdings, r: RecipeDefinition)
    requires Dominates(p, component, h) && RecipeItems(r) <= component
    requires Apply(h, Fire(r.inputs, r.outputs)).Some?
    ensures Affordable(p, r) && Dominates(FirePool(p, r), component, Apply(h, Fire(r.inputs, r.outputs)).value)
  {
    forall item | item in r.inputs ensures r.inputs[item] <= InPool(p, item) {
      TotalCovers(h, Player, item);
    }
    forall item | item in component
      ensures Total(Apply(h, Fire(r.inputs, r.outputs)).value, item) <= FirePool(p, r)[item]
    {
      ApplyConserves(h, Fire(r.inputs, r.outputs), item);
    }
  }

  lemma DominatesUntouched(p: Pool, component: set<Id>, h: Holdings, move: Move)
    requires Dominates(p, component, h) && Apply(h, move).Some?
    requires move.Fire? ==> (move.inputs.Keys + move.outputs.Keys) !! component
    ensures Dominates(p, component, Apply(h, move).value)
  {
    forall item | item in component ensures Total(Apply(h, move).value, item) <= p[item] {
      ApplyConserves(h, move, item);
    }
  }

  /** Whatever a run does, firing its recipes on the pool alone keeps at least as much of every item. */
  lemma {:induction false} PoolDominatesRun(d: Draft, component: set<Id>, carried: Inventory, log: seq<Event>, h: Holdings)
    returns (p: Pool)
    requires StructureValid(d) && Closed(d, component) && Reaches(d, carried, log, h)
    ensures PoolReaches(Touching(d.recipes, component), Pooled(d, component), p) && Dominates(p, component, h)
    decreases |log|
  {
    var recipes := Touching(d.recipes, component);
    if log == [] {
      p := Pooled(d, component);
      ReachesItself(recipes, p);
      forall item | item in component ensures Total(h, item) <= p[item] {
        PooledDominates(d, carried, item);
      }
    } else {
      var before := ReachesBefore(d, carried, log, h);
      p := PoolDominatesRun(d, component, carried, log[..|log| - 1], before);
      var move := MoveOf(log[|log| - 1]);
      if move.Some? {
        if move.value.Fire? {
          var r := FiredRecipe(d, carried, log, h);
          if Touches(r, component) {
            TouchingMembers(d.recipes, component);
            DominatesFired(p, component, before, r);
            ReachesNext(recipes, Pooled(d, component), p, r);
            p := FirePool(p, r);
          } else {
            DominatesUntouched(p, component, before, move.value);
          }
        } else {
          DominatesUntouched(p, component, before, move.value);
        }
      }
    }
  }

  /** The exhaustive search bounds what any run over any number of owners can show of the component. */
  lemma ClosureSound(d: Draft, component: set<Id>, w: nat)
    requires StructureValid(d) && Closed(d, component)
    requires LargestReachable(d, Touching(d.recipes, component), Pooled(d, component), w)
    ensures Bounds(d, component, w)
  {
    forall carried, log, h | Reaches(d, carried, log, h)
      ensures LineWords(d, component * CarriedItems(h)) <= w
    {
      var p := PoolDominatesRun(d, component, carried, log, h);
      forall item | item in component * CarriedItems(h) ensures item in Shown(p) {
        ShownIsHeld(d, carried, log, h, item);
      }
      SumSubset(component * CarriedItems(h), Shown(p), LineCost(d.labels.items));
    }
  }
}

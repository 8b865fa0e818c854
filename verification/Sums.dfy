// Sums over finite sets of identifiers.
module Sums {
  import opened Basics

  function SumOver(s: set<Id>, f: Id -> nat): nat
    decreases |s|
  {
    if s == {} then 0
    else
      var m := Least(s);
      f(m) + SumOver(s - {m}, f)
  }

  /** Any element can be split off a sum. */
  lemma {:induction false} SumSplit(s: set<Id>, f: Id -> nat, x: Id)
    requires x in s
    ensures SumOver(s, f) == f(x) + SumOver(s - {x}, f)
    decreases |s|
  {
    var m := Least(s);
    if m != x {
      SumSplit(s - {m}, f, x);
      SumSplit(s - {x}, f, m);
      assert s - {m} - {x} == s - {x} - {m};
    }
  }

  lemma {:induction false} SumSame(s: set<Id>, f: Id -> nat, g: Id -> nat)
    requires forall x <- s :: f(x) == g(x)
    ensures SumOver(s, f) == SumOver(s, g)
    decreases |s|
  {
    if s != {} {
      SumSame(s - {Least(s)}, f, g);
    }
  }

  lemma {:induction false} SumAtMost(s: set<Id>, f: Id -> nat, g: Id -> nat)
    requires forall x <- s :: f(x) <= g(x)
    ensures SumOver(s, f) <= SumOver(s, g)
    decreases |s|
  {
    if s != {} {
      SumAtMost(s - {Least(s)}, f, g);
    }
  }

  lemma {:induction false} SumAdd(s: set<Id>, f: Id -> nat, g: Id -> nat, h: Id -> nat)
    requires forall x <- s :: h(x) == f(x) + g(x)
    ensures SumOver(s, h) == SumOver(s, f) + SumOver(s, g)
    decreases |s|
  {
    if s != {} {
      SumAdd(s - {Least(s)}, f, g, h);
    }
  }

  lemma {:induction false} SumZero(s: set<Id>, f: Id -> nat)
    requires forall x <- s :: f(x) == 0
    ensures SumOver(s, f) == 0
    decreases |s|
  {
    if s != {} {
      SumZero(s - {Least(s)}, f);
    }
  }

  lemma {:induction false} SumSubset(s: set<Id>, t: set<Id>, f: Id -> nat)
    requires s <= t
    ensures SumOver(s, f) <= SumOver(t, f)
    decreases |s|
  {
    if s != {} {
      var m := Least(s);
      SumSplit(t, f, m);
      SumSubset(s - {m}, t - {m}, f);
    }
  }

  /** Elements outside contribute nothing. */
  lemma {:induction false} SumExtend(s: set<Id>, t: set<Id>, f: Id -> nat)
    requires s <= t && forall x <- t - s :: f(x) == 0
    ensures SumOver(t, f) == SumOver(s, f)
    decreases |t - s|
  {
    if t - s != {} {
      var x :| x in t - s;
      SumSplit(t, f, x);
      SumExtend(s, t - {x}, f);
    } else {
      assert t == s;
    }
  }

  lemma {:induction false} SumUnion(s: set<Id>, t: set<Id>, f: Id -> nat)
    ensures SumOver(s + t, f) <= SumOver(s, f) + SumOver(t, f)
    decreases |s|
  {
    if s == {} {
      assert s + t == t;
    } else {
      var m := Least(s);
      SumUnion(s - {m}, t, f);
      if m in t {
        assert s - {m} + t == s + t;
      } else {
        SumSplit(s + t, f, m);
        assert s + t - {m} == s - {m} + t;
      }
    }
  }

  /** A set is no larger than a sum in which every element counts. */
  lemma {:induction false} SumCounts(s: set<Id>, f: Id -> nat)
    requires forall x <- s :: f(x) > 0
    ensures |s| <= SumOver(s, f)
    decreases |s|
  {
    if s != {} {
      SumCounts(s - {Least(s)}, f);
    }
  }

  // ---- The largest costs ----

  predicate Costliest(s: set<Id>, cost: Id -> nat, m: Id) {
    m in s && forall x <- s :: cost(x) <= cost(m)
  }

  lemma {:induction false} CostliestExists(s: set<Id>, cost: Id -> nat)
    requires s != {}
    ensures exists m :: Costliest(s, cost, m)
    decreases |s|
  {
    var x :| x in s;
    if s == {x} {
      assert Costliest(s, cost, x);
    } else {
      CostliestExists(s - {x}, cost);
      var m :| Costliest(s - {x}, cost, m);
      assert Costliest(s, cost, if cost(x) > cost(m) then x else m);
    }
  }

  /** The first costliest element in key order. */
  function PickCostliest(s: set<Id>, cost: Id -> nat): (m: Id)
    requires s != {}
    ensures Costliest(s, cost, m)
  {
    CostliestExists(s, cost);
    var best := set m | m in s && Costliest(s, cost, m);
    assert best != {} by {
      var x :| Costliest(s, cost, x);
      assert x in best;
    }
    Least(best)
  }

  /** The sum of the k largest costs: a descending sort, cut after k entries. */
  function TopCosts(s: set<Id>, cost: Id -> nat, k: nat): nat
    decreases k
  {
    if k == 0 || s == {} then 0
    else
      var m := PickCostliest(s, cost);
      cost(m) + TopCosts(s - {m}, cost, k - 1)
  }

  /** No k elements cost more. */
  lemma {:induction false} TopCostsBound(chosen: set<Id>, s: set<Id>, cost: Id -> nat, k: nat)
    requires chosen <= s && |chosen| <= k
    ensures SumOver(chosen, cost) <= TopCosts(s, cost, k)
    decreases k
  {
    if chosen != {} {
      var m := PickCostliest(s, cost);
      var x := if m in chosen then m else Least(chosen);
      SumSplit(chosen, cost, x);
      TopCostsBound(chosen - {x}, s - {m}, cost, k - 1);
    }
  }

  /** Some k elements, or all of them if there are fewer, cost exactly that much. */
  lemma {:induction false} TopCostsAttained(s: set<Id>, cost: Id -> nat, k: nat) returns (chosen: set<Id>)
    ensures chosen <= s && |chosen| == Min(k, |s|) && SumOver(chosen, cost) == TopCosts(s, cost, k)
    decreases k
  {
    if k == 0 || s == {} {
      chosen := {};
    } else {
      var m := PickCostliest(s, cost);
      var rest := TopCostsAttained(s - {m}, cost, k - 1);
      chosen := rest + {m};
      SumSplit(chosen, cost, m);
      assert chosen - {m} == rest;
    }
  }
}

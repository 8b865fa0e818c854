// Shared vocabulary: results, machine-width integers, identifiers and their order.
module Basics {

  datatype Option<+T> = None | Some(value: T)

  datatype Result<+T, +E> = Ok(value: T) | Err(error: E)

  const U32_MAX: nat := 0xFFFF_FFFF
  const U64_MAX: nat := 0xFFFF_FFFF_FFFF_FFFF
  const I64_MIN: int := -0x8000_0000_0000_0000
  const I64_MAX: int := 0x7FFF_FFFF_FFFF_FFFF

  type u32 = x: int | 0 <= x <= 0xFFFF_FFFF
  type u64 = x: int | 0 <= x <= 0xFFFF_FFFF_FFFF_FFFF
  type i64 = x: int | -0x8000_0000_0000_0000 <= x <= 0x7FFF_FFFF_FFFF_FFFF

  type Id = string

  function CheckedAdd64(a: u64, b: u64): Option<u64> {
    if a + b <= U64_MAX then Some(a + b) else None
  }

  function Min(a: int, b: int): int {
    if a <= b then a else b
  }

  function Max(a: int, b: int): int {
    if a >= b then a else b
  }

  lemma EmptyOrNot<T>(xs: seq<T>)
    ensures xs == [] || exists x :: x in xs
  {
    if xs != [] {
      assert xs[0] in xs;
    }
  }

  // ---- The order of identifiers (lexicographic, as for Rust strings) ----

  predicate Less(a: Id, b: Id) {
    b != [] && (a == [] || a[0] < b[0] || (a[0] == b[0] && Less(a[1..], b[1..])))
  }

  lemma LessIrreflexive(a: Id)
    ensures !Less(a, a)
  {
  }

  lemma {:induction false} LessTransitive(a: Id, b: Id, c: Id)
    requires Less(a, b) && Less(b, c)
    ensures Less(a, c)
    decreases |a|
  {
    if a != [] && a[0] == b[0] == c[0] {
      LessTransitive(a[1..], b[1..], c[1..]);
    }
  }

  lemma {:induction false} LessTotal(a: Id, b: Id)
    ensures a == b || Less(a, b) || Less(b, a)
    decreases |a|
  {
    if a != [] && b != [] && a[0] == b[0] {
      LessTotal(a[1..], b[1..]);
      if a[1..] == b[1..] {
        assert a == [a[0]] + a[1..] && b == [b[0]] + b[1..];
      }
    }
  }

  lemma LessAsymmetric(a: Id, b: Id)
    requires Less(a, b)
    ensures !Less(b, a)
  {
    if Less(b, a) {
      LessTransitive(a, b, a);
      LessIrreflexive(a);
    }
  }

  predicate IsLeast(s: set<Id>, m: Id) {
    m in s && forall x <- s :: x == m || Less(m, x)
  }

  lemma {:induction false} LeastExists(s: set<Id>)
    requires s != {}
    ensures exists m :: IsLeast(s, m)
    decreases |s|
  {
    var x :| x in s;
    var rest := s - {x};
    if rest == {} {
      assert s == {x};
      assert IsLeast(s, x);
    } else {
      LeastExists(rest);
      var m :| IsLeast(rest, m);
      LessTotal(x, m);
      if Less(x, m) {
        forall y | y in s ensures y == x || Less(x, y) {
          if y != x && y != m {
            LessTransitive(x, m, y);
          }
        }
        assert IsLeast(s, x);
      } else {
        assert IsLeast(s, m);
      }
    }
  }

  lemma LeastUnique(s: set<Id>, a: Id, b: Id)
    requires IsLeast(s, a) && IsLeast(s, b)
    ensures a == b
  {
    if a != b {
      LessAsymmetric(a, b);
    }
  }

  function Least(s: set<Id>): (m: Id)
    requires s != {}
    ensures IsLeast(s, m)
  {
    LeastExists(s);
    forall a, b | IsLeast(s, a) && IsLeast(s, b) ensures a == b {
      LeastUnique(s, a, b);
    }
    var m :| IsLeast(s, m);
    m
  }

  /** The order in which a tree map visits its keys. */
  function SortedKeys(s: set<Id>): (keys: seq<Id>)
    ensures |keys| == |s|
    ensures forall x :: x in keys <==> x in s
    ensures forall i, j :: 0 <= i < j < |keys| ==> Less(keys[i], keys[j])
    decreases |s|
  {
    if s == {} then []
    else
      var m := Least(s);
      [m] + SortedKeys(s - {m})
  }

  // ---- Tables built from authored lists: the last entry of an id wins ----

  predicate DistinctIds<T>(xs: seq<T>, id: T -> Id) {
    forall i, j :: 0 <= i < j < |xs| ==> id(xs[i]) != id(xs[j])
  }

  function Table<T>(xs: seq<T>, id: T -> Id): map<Id, T> {
    if xs == [] then map[]
    else Table(xs[..|xs| - 1], id)[id(xs[|xs| - 1]) := xs[|xs| - 1]]
  }

  lemma {:induction false} TableEntries<T>(xs: seq<T>, id: T -> Id)
    ensures forall k <- Table(xs, id) :: Table(xs, id)[k] in xs && id(Table(xs, id)[k]) == k
    ensures forall x <- xs :: id(x) in Table(xs, id)
    ensures DistinctIds(xs, id) ==> forall x <- xs :: Table(xs, id)[id(x)] == x
  {
    if xs != [] {
      var n := |xs| - 1;
      TableEntries(xs[..n], id);
      forall x | x in xs
        ensures id(x) in Table(xs, id)
        ensures DistinctIds(xs, id) ==> Table(xs, id)[id(x)] == x
      {
        var i :| 0 <= i < |xs| && xs[i] == x;
        if i < n {
          assert xs[..n][i] == x;
        }
      }
    }
  }
}

/** Baskets: a basket is the list of item ids of one order, duplicates allowed. */
module Baskets {

  /** The distinct item ids of a basket. */
  function ItemSet(b: seq<int>): set<int>
  {
    set x | x in b
  }

  /** The number of occurrences of `x` in `b` (a list's `count`). */
  function Count(b: seq<int>, x: int): nat
  {
    if b == [] then 0 else (if b[0] == x then 1 else 0) + Count(b[1..], x)
  }

  /** No item id occurs twice in the basket. */
  predicate Distinct(b: seq<int>)
  {
    forall i, j :: 0 <= i < j < |b| ==> b[i] != b[j]
  }

  /** A non-empty set has an element (stated so that `:|` can pick one). */
  lemma NonEmpty(u: set<int>)
    requires u != {}
    ensures exists x :: x in u
  {
    if forall x :: x !in u {
      assert false;
    }
  }

  /** A ratio of counts `num <= den` lies in [0, 1] and is 1 exactly when they are equal. */
  lemma RatioBounds(num: nat, den: nat)
    requires 0 < den && num <= den
    ensures 0.0 <= num as real / den as real <= 1.0
    ensures num as real / den as real == 1.0 <==> num == den
  {
    var q := num as real / den as real;
    assert q * den as real == num as real;
  }

  function Min(x: int, y: int): int { if x <= y then x else y }

  function Max(x: int, y: int): int { if x <= y then y else x }

  /** An item occurs in a basket exactly when its count there is positive. */
  lemma {:induction false} CountPositive(b: seq<int>, x: int)
    ensures Count(b, x) > 0 <==> x in b
  {
    if b != [] {
      CountPositive(b[1..], x);
      assert x in b <==> b[0] == x || x in b[1..];
    }
  }

  /** In a basket without repetitions every count is 0 or 1. */
  lemma {:induction false} CountDistinct(b: seq<int>, x: int)
    requires Distinct(b)
    ensures Count(b, x) == if x in b then 1 else 0
  {
    if b != [] {
      assert Distinct(b[1..]) by {
        forall i, j | 0 <= i < j < |b[1..]| ensures b[1..][i] != b[1..][j] {
          assert b[1..][i] == b[i + 1] && b[1..][j] == b[j + 1];
        }
      }
      CountDistinct(b[1..], x);
      assert x in b <==> b[0] == x || x in b[1..];
      if b[0] == x {
        forall k | 0 <= k < |b[1..]| ensures b[1..][k] != x {
          assert b[1..][k] == b[k + 1];
        }
      }
    }
  }
}

/** The two basket similarities used to score a prediction against the real next basket. */
module Similarity {
  import opened Baskets

  /**
   * Set Jaccard similarity (jaccard_rd1): the number of distinct items in both
   * baskets over the number of distinct items in either. Both baskets empty is
   * a division by zero in the source, hence the precondition.
   */
  function JaccardSet(a: seq<int>, b: seq<int>): (r: real)
    requires a != [] || b != []
    ensures 0.0 <= r <= 1.0
    ensures r == 1.0 <==> ItemSet(a) == ItemSet(b)
  {
    var both, either := ItemSet(a) * ItemSet(b), ItemSet(a) + ItemSet(b);
    assert (if a != [] then a[0] else b[0]) in either;
    SubsetCard(both, either);
    RatioBounds(|both|, |either|);
    assert both == either <==> ItemSet(a) == ItemSet(b);
    |both| as real / |either| as real
  }

  /** A subset is no larger than its superset, and equally large only when equal. */
  lemma SubsetCard(s: set<int>, t: set<int>)
    requires s <= t
    ensures |s| <= |t|
    ensures |s| == |t| ==> s == t
  {
    assert t == s + (t - s);
    assert |t| == |s| + |t - s|;
  }

  /** The sum of `f` over a finite set, taken in whatever order the set is walked. */
  ghost function SumOver(u: set<int>, f: int -> int): int
  {
    if u == {} then 0 else NonEmpty(u); var x :| x in u; f(x) + SumOver(u - {x}, f)
  }

  /** The sum does not depend on the order: any element can be taken out first. */
  lemma {:induction false} SumOverRemove(u: set<int>, f: int -> int, y: int)
    requires y in u
    ensures SumOver(u, f) == f(y) + SumOver(u - {y}, f)
    decreases u
  {
    var x :| x in u && SumOver(u, f) == f(x) + SumOver(u - {x}, f);
    if x != y {
      SumOverRemove(u - {x}, f, y);
      SumOverRemove(u - {y}, f, x);
      assert u - {x} - {y} == u - {y} - {x};
    }
  }

  /** Summing a pointwise smaller function gives a smaller sum. */
  lemma {:induction false} SumOverMonotone(u: set<int>, f: int -> int, g: int -> int)
    requires forall x :: x in u ==> f(x) <= g(x)
    ensures SumOver(u, f) <= SumOver(u, g)
    decreases u
  {
    if u != {} {
      NonEmpty(u);
      var x :| x in u && SumOver(u, f) == f(x) + SumOver(u - {x}, f);
      SumOverRemove(u, g, x);
      SumOverMonotone(u - {x}, f, g);
    }
  }

  /** A function that is at least 1 everywhere on `u` sums to at least `|u|`. */
  lemma {:induction false} SumOverAtLeastCard(u: set<int>, f: int -> int)
    requires forall x :: x in u ==> f(x) >= 1
    ensures SumOver(u, f) >= |u|
    decreases u
  {
    if u != {} {
      NonEmpty(u);
      var x :| x in u && SumOver(u, f) == f(x) + SumOver(u - {x}, f);
      SumOverAtLeastCard(u - {x}, f);
    }
  }

  /** Summing the indicator of `s` over `u` counts the elements of `u` in `s`. */
  lemma {:induction false} SumOverIndicator(u: set<int>, f: int -> int, s: set<int>)
    requires forall x :: x in u ==> f(x) == if x in s then 1 else 0
    ensures SumOver(u, f) == |u * s|
    decreases u
  {
    if u != {} {
      NonEmpty(u);
      var x :| x in u && SumOver(u, f) == f(x) + SumOver(u - {x}, f);
      SumOverIndicator(u - {x}, f, s);
      if x in s {
        assert u * s == (u - {x}) * s + {x};
      } else {
        assert u * s == (u - {x}) * s;
      }
    }
  }

  /** Per item, the smaller of its two counts: what both baskets agree on. */
  function MinCount(a: seq<int>, b: seq<int>): int -> int
  {
    x => Min(Count(a, x), Count(b, x))
  }

  /** Per item, the larger of its two counts. */
  function MaxCount(a: seq<int>, b: seq<int>): int -> int
  {
    x => Max(Count(a, x), Count(b, x))
  }

  /** The denominator of the multiset similarity is positive once a basket is non-empty. */
  lemma MaxCountSumPositive(a: seq<int>, b: seq<int>)
    requires a != [] || b != []
    ensures SumOver(ItemSet(a) + ItemSet(b), MaxCount(a, b)) >= |ItemSet(a) + ItemSet(b)| > 0
  {
    var u := ItemSet(a) + ItemSet(b);
    assert (if a != [] then a[0] else b[0]) in u;
    forall x | x in u ensures MaxCount(a, b)(x) >= 1 {
      CountPositive(a, x);
      CountPositive(b, x);
    }
    SumOverAtLeastCard(u, MaxCount(a, b));
  }

  /**
   * Multiset Jaccard similarity (jaccard_rd2) as a mathematical definition: the
   * sum over the distinct items of the smaller count, over the sum of the larger
   * count. Both baskets empty is a division by zero in the source.
   */
  ghost function MultisetJaccard(a: seq<int>, b: seq<int>): real
    requires a != [] || b != []
  {
    var u := ItemSet(a) + ItemSet(b);
    MaxCountSumPositive(a, b);
    SumOver(u, MinCount(a, b)) as real / SumOver(u, MaxCount(a, b)) as real
  }

  /**
   * jaccard_rd2: walks the distinct items of both baskets in an unspecified
   * order and accumulates the smaller and the larger count of each.
   */
  method JaccardMultiset(a: seq<int>, b: seq<int>) returns (r: real)
    requires a != [] || b != []
    ensures r == MultisetJaccard(a, b)
    ensures 0.0 <= r <= 1.0
  {
    var uniques := ItemSet(a) + ItemSet(b);
    var num, den := 0, 0;
    var rest := uniques;
    while rest != {}
      invariant rest <= uniques
      invariant num + SumOver(rest, MinCount(a, b)) == SumOver(uniques, MinCount(a, b))
      invariant den + SumOver(rest, MaxCount(a, b)) == SumOver(uniques, MaxCount(a, b))
      decreases rest
    {
      NonEmpty(rest);
      var pid :| pid in rest;
      var countA, countB := Count(a, pid), Count(b, pid);
      num := num + Min(countA, countB);
      den := den + Max(countA, countB);
      SumOverRemove(rest, MinCount(a, b), pid);
      SumOverRemove(rest, MaxCount(a, b), pid);
      rest := rest - {pid};
    }
    MaxCountSumPositive(a, b);
    r := num as real / den as real;
    MultisetJaccardBounds(a, b);
  }

  /** The multiset similarity lies in [0, 1]: per item, min <= max. */
  lemma MultisetJaccardBounds(a: seq<int>, b: seq<int>)
    requires a != [] || b != []
    ensures 0.0 <= MultisetJaccard(a, b) <= 1.0
  {
    var u := ItemSet(a) + ItemSet(b);
    SumOverMonotone(u, MinCount(a, b), MaxCount(a, b));
    SumOverIndicator(u, x => 0, {});
    SumOverMonotone(u, x => 0, MinCount(a, b));
    MaxCountSumPositive(a, b);
    RatioBounds(SumOver(u, MinCount(a, b)), SumOver(u, MaxCount(a, b)));
  }

  /** Two functions that agree on `u` have the same sum over `u`. */
  lemma SumOverCongruent(u: set<int>, f: int -> int, g: int -> int)
    requires forall x :: x in u ==> f(x) == g(x)
    ensures SumOver(u, f) == SumOver(u, g)
  {
    SumOverMonotone(u, f, g);
    SumOverMonotone(u, g, f);
  }

  /** The multiset similarity does not depend on which basket comes first. */
  lemma MultisetJaccardSymmetric(a: seq<int>, b: seq<int>)
    requires a != [] || b != []
    ensures MultisetJaccard(a, b) == MultisetJaccard(b, a)
  {
    assert ItemSet(a) + ItemSet(b) == ItemSet(b) + ItemSet(a);
    SumOverCongruent(ItemSet(a) + ItemSet(b), MinCount(a, b), MinCount(b, a));
    SumOverCongruent(ItemSet(a) + ItemSet(b), MaxCount(a, b), MaxCount(b, a));
  }

  /** A non-empty basket is multiset-similar to itself with score 1. */
  lemma MultisetJaccardSelf(a: seq<int>)
    requires a != []
    ensures MultisetJaccard(a, a) == 1.0
  {
    SumOverCongruent(ItemSet(a) + ItemSet(a), MinCount(a, a), MaxCount(a, a));
    MaxCountSumPositive(a, a);
    var n := SumOver(ItemSet(a) + ItemSet(a), MaxCount(a, a));
    RatioBounds(n, n);
  }

  /** Without repeated items the two similarities coincide. */
  lemma MultisetJaccardOfDistinct(a: seq<int>, b: seq<int>)
    requires a != [] || b != []
    requires Distinct(a) && Distinct(b)
    ensures MultisetJaccard(a, b) == JaccardSet(a, b)
  {
    var u := ItemSet(a) + ItemSet(b);
    forall x | x in u
      ensures MinCount(a, b)(x) == if x in ItemSet(a) * ItemSet(b) then 1 else 0
      ensures MaxCount(a, b)(x) == if x in u then 1 else 0
    {
      CountDistinct(a, x);
      CountDistinct(b, x);
    }
    SumOverIndicator(u, MinCount(a, b), ItemSet(a) * ItemSet(b));
    SumOverIndicator(u, MaxCount(a, b), u);
    assert u * (ItemSet(a) * ItemSet(b)) == ItemSet(a) * ItemSet(b);
    assert u * u == u;
  }

  /** Set similarity does not depend on which basket comes first. */
  lemma JaccardSetSymmetric(a: seq<int>, b: seq<int>)
    requires a != [] || b != []
    ensures JaccardSet(a, b) == JaccardSet(b, a)
  {
    assert ItemSet(a) * ItemSet(b) == ItemSet(b) * ItemSet(a);
    assert ItemSet(a) + ItemSet(b) == ItemSet(b) + ItemSet(a);
  }

  /** {1,2,3} against {2,3,4}: two shared items out of four. */
  lemma JaccardSetExample()
    ensures JaccardSet([1, 2, 3], [2, 3, 4]) == 0.5
  {
    var a, b := [1, 2, 3], [2, 3, 4];
    assert ItemSet(a) == {1, 2, 3} by {
      assert forall x :: x in a <==> x == 1 || x == 2 || x == 3;
    }
    assert ItemSet(b) == {2, 3, 4} by {
      assert forall x :: x in b <==> x == 2 || x == 3 || x == 4;
    }
    assert |{2, 3}| == 2;
    assert |{1, 2, 3, 4}| == 4;
    assert ItemSet(a) * ItemSet(b) == {2, 3};
    assert ItemSet(a) + ItemSet(b) == {1, 2, 3, 4};
  }

  /** [1,1,2] against [1,2,2]: min counts 1 + 1, max counts 2 + 2. */
  lemma MultisetJaccardExample()
    ensures MultisetJaccard([1, 1, 2], [1, 2, 2]) == 0.5
  {
    var a, b := [1, 1, 2], [1, 2, 2];
    var u := ItemSet(a) + ItemSet(b);
    assert u == {1, 2};
    assert Count(a, 1) == 2 && Count(a, 2) == 1;
    assert Count(b, 1) == 1 && Count(b, 2) == 2;
    SumOverRemove(u, MinCount(a, b), 1);
    SumOverRemove(u, MaxCount(a, b), 1);
    assert u - {1} == {2};
    SumOverRemove({2}, MinCount(a, b), 2);
    SumOverRemove({2}, MaxCount(a, b), 2);
    assert {2} - {2} == {};
  }
}

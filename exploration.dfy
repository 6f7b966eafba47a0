/**
 * The exploration ratio of one user: the share of the distinct items in the
 * user's most recent baskets that the user had never bought before.
 */
module Exploration {
  import opened Baskets

  /** An order history: the user's baskets, oldest first. */
  type History = seq<seq<int>>

  /** The items bought in the first `k` baskets of the history. */
  function Bought(h: History, k: nat): set<int>
    requires k <= |h|
  {
    if k == 0 then {} else Bought(h, k - 1) + ItemSet(h[k - 1])
  }

  /** Basket `i` of `n` is among the last `lastN` baskets. */
  predicate InWindow(n: int, i: int, lastN: int)
  {
    n - i <= lastN
  }

  /** The items of basket `i` that no earlier basket holds. */
  function FirstPurchases(h: History, i: nat): set<int>
    requires i < |h|
  {
    ItemSet(h[i]) - Bought(h, i)
  }

  /** First purchases counted over the windowed baskets among the first `k`. */
  function ExplCount(h: History, k: nat, lastN: int): nat
    requires k <= |h|
  {
    if k == 0 then 0
    else ExplCount(h, k - 1, lastN) + (if InWindow(|h|, k - 1, lastN) then |FirstPurchases(h, k - 1)| else 0)
  }

  /** Distinct items counted over the windowed baskets among the first `k`. */
  function WindowTotal(h: History, k: nat, lastN: int): nat
    requires k <= |h|
  {
    if k == 0 then 0
    else WindowTotal(h, k - 1, lastN) + (if InWindow(|h|, k - 1, lastN) then |ItemSet(h[k - 1])| else 0)
  }

  /**
   * The ratio itself. A window with no items (`lastN <= 0`, or only empty
   * baskets in it) is a division by zero in the source, hence the precondition.
   */
  function ExplorationRatio(h: History, lastN: int): real
    requires WindowTotal(h, |h|, lastN) > 0
  {
    ExplCount(h, |h|, lastN) as real / WindowTotal(h, |h|, lastN) as real
  }

  /**
   * expl_ratio: walks the history oldest first, growing the set of items bought
   * so far, and counts within the window the distinct items and the first
   * purchases among them.
   */
  method ExplRatio(history: History, lastN: int := 1) returns (r: real)
    requires WindowTotal(history, |history|, lastN) > 0
    ensures r == ExplorationRatio(history, lastN)
    ensures 0.0 <= r <= 1.0
  {
    var bought: set<int> := {};
    var explCnt, total := 0, 0;
    for i := 0 to |history|
      invariant bought == Bought(history, i)
      invariant explCnt == ExplCount(history, i, lastN)
      invariant total == WindowTotal(history, i, lastN)
    {
      var basket := ItemSet(history[i]);
      var windowed := |history| - i <= lastN;
      if windowed {
        total := total + |basket|;
      }
      var rest := basket;
      while rest != {}
        invariant rest <= basket
        invariant bought == Bought(history, i) + (basket - rest)
        invariant explCnt == ExplCount(history, i, lastN)
                             + (if windowed then |(basket - rest) - Bought(history, i)| else 0)
        decreases rest
      {
        NonEmpty(rest);
        var item :| item in rest;
        ghost var seen := (basket - rest) - Bought(history, i);
        if item !in bought {
          if windowed {
            explCnt := explCnt + 1;
          }
          bought := bought + {item};
          assert (basket - (rest - {item})) - Bought(history, i) == seen + {item};
        } else {
          assert (basket - (rest - {item})) - Bought(history, i) == seen;
        }
        rest := rest - {item};
      }
      assert basket - {} == basket;
    }
    ExplorationRatioBounds(history, lastN);
    r := explCnt as real / total as real;
  }

  /** First purchases never outnumber the distinct items they are drawn from. */
  lemma {:induction false} ExplCountAtMostTotal(h: History, k: nat, lastN: int)
    requires k <= |h|
    ensures ExplCount(h, k, lastN) <= WindowTotal(h, k, lastN)
  {
    if k > 0 {
      ExplCountAtMostTotal(h, k - 1, lastN);
      assert FirstPurchases(h, k - 1) <= ItemSet(h[k - 1]);
    }
  }

  /** The ratio lies in [0, 1]. */
  lemma ExplorationRatioBounds(h: History, lastN: int)
    requires WindowTotal(h, |h|, lastN) > 0
    ensures 0.0 <= ExplorationRatio(h, lastN) <= 1.0
  {
    ExplCountAtMostTotal(h, |h|, lastN);
    RatioBounds(ExplCount(h, |h|, lastN), WindowTotal(h, |h|, lastN));
  }

  /** An item has been bought in the first `k` baskets iff one of them holds it. */
  lemma {:induction false} BoughtMembers(h: History, k: nat, x: int)
    requires k <= |h|
    ensures x in Bought(h, k) <==> exists i :: 0 <= i < k && x in h[i]
  {
    if k > 0 {
      BoughtMembers(h, k - 1, x);
      if x in h[k - 1] {
        assert x in ItemSet(h[k - 1]);
      }
    }
  }

  /** Items bought in a prefix stay bought in any longer prefix. */
  lemma {:induction false} BoughtGrows(h: History, j: nat, k: nat)
    requires j <= k <= |h|
    ensures Bought(h, j) <= Bought(h, k)
    decreases k - j
  {
    if j < k {
      BoughtGrows(h, j, k - 1);
    }
  }

  /** The index of the first basket inside the window. */
  function WindowStart(n: nat, lastN: int): (s: nat)
    ensures s <= n
    ensures forall i :: 0 <= i < n ==> (InWindow(n, i, lastN) <==> s <= i)
  {
    if n - lastN <= 0 then 0 else if n - lastN >= n then n else n - lastN
  }

  /**
   * What the counter counts: exactly the items that occur in some basket of the
   * window and in no basket before it.
   */
  lemma {:induction false} ExplCountIsNewInWindow(h: History, k: nat, lastN: int)
    requires WindowStart(|h|, lastN) <= k <= |h|
    ensures ExplCount(h, k, lastN) == |Bought(h, k) - Bought(h, WindowStart(|h|, lastN))|
  {
    var s := WindowStart(|h|, lastN);
    if k == s {
      ExplCountBeforeWindow(h, s, lastN);
      assert Bought(h, k) - Bought(h, s) == {};
    } else {
      ExplCountIsNewInWindow(h, k - 1, lastN);
      assert InWindow(|h|, k - 1, lastN);
      NewSinceGrows(h, s, k);
    }
  }

  /**
   * Membership form of the same fact: an item is new in the window iff some
   * basket of the window holds it and no basket before the window does.
   */
  lemma NewInWindowMembers(h: History, lastN: int, x: int)
    ensures var s := WindowStart(|h|, lastN);
      x in Bought(h, |h|) - Bought(h, s) <==>
        (exists i :: s <= i < |h| && x in h[i]) && forall i :: 0 <= i < s ==> x !in h[i]
  {
    var s := WindowStart(|h|, lastN);
    BoughtMembers(h, |h|, x);
    BoughtMembers(h, s, x);
  }

  /** Basket `k - 1` adds its first purchases, and only those, to what is new since `s`. */
  lemma NewSinceGrows(h: History, s: nat, k: nat)
    requires s < k <= |h|
    ensures |Bought(h, k) - Bought(h, s)| == |Bought(h, k - 1) - Bought(h, s)| + |FirstPurchases(h, k - 1)|
  {
    BoughtGrows(h, s, k - 1);
    var before := Bought(h, k - 1) - Bought(h, s);
    assert Bought(h, k) - Bought(h, s) == before + FirstPurchases(h, k - 1);
    assert before !! FirstPurchases(h, k - 1);
  }

  /** Baskets before the window contribute nothing to the count. */
  lemma {:induction false} ExplCountBeforeWindow(h: History, k: nat, lastN: int)
    requires k <= WindowStart(|h|, lastN)
    ensures ExplCount(h, k, lastN) == 0 && WindowTotal(h, k, lastN) == 0
  {
    if k > 0 {
      ExplCountBeforeWindow(h, k - 1, lastN);
    }
  }

  /** Repeating items inside baskets changes nothing: only the item sets matter. */
  lemma {:induction false} DuplicatesIgnored(h: History, g: History, k: nat, lastN: int)
    requires |h| == |g| && k <= |h|
    requires forall i :: 0 <= i < |h| ==> ItemSet(h[i]) == ItemSet(g[i])
    ensures Bought(h, k) == Bought(g, k)
    ensures ExplCount(h, k, lastN) == ExplCount(g, k, lastN)
    ensures WindowTotal(h, k, lastN) == WindowTotal(g, k, lastN)
  {
    if k > 0 {
      DuplicatesIgnored(h, g, k - 1, lastN);
    }
  }

  /** [[1,2],[1,3],[2,3,4]] with a window of one basket: only item 4 of three is new. */
  lemma ExplorationRatioExample()
    ensures WindowTotal([[1, 2], [1, 3], [2, 3, 4]], 3, 1) == 3
    ensures ExplorationRatio([[1, 2], [1, 3], [2, 3, 4]], 1) == 1.0 / 3.0
  {
    var h: History := [[1, 2], [1, 3], [2, 3, 4]];
    assert ItemSet(h[0]) == {1, 2} by {
      assert forall x :: x in h[0] <==> x == 1 || x == 2;
    }
    assert ItemSet(h[1]) == {1, 3} by {
      assert forall x :: x in h[1] <==> x == 1 || x == 3;
    }
    assert ItemSet(h[2]) == {2, 3, 4} by {
      assert forall x :: x in h[2] <==> x == 2 || x == 3 || x == 4;
    }
    assert Bought(h, 2) == {1, 2, 3};
    assert FirstPurchases(h, 2) == {4};
    assert |{2, 3, 4}| == 3;
    assert WindowTotal(h, 2, 1) == 0 && ExplCount(h, 2, 1) == 0;
  }
}

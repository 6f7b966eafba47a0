/**
 * The prediction engine: the next basket of a user, taken from ranked purchase
 * frequencies by one of four heuristics.
 */
module Prediction {
  import opened Baskets

  /** A frequency ranking: (item id, purchase count) rows, most frequent first. */
  type Ranking = seq<(int, int)>

  /** The frequency tables a prediction reads. */
  datatype FreqTables = FreqTables(
    personal: map<int, Ranking>,  // per user id, that user's ranking (plain or weighted)
    global: Ranking               // the ranking over all users
  )

  /** A user's repetition and exploration shares. */
  datatype Ratio = Ratio(repetition: real, exploration: real)

  /** What a prediction gives back. */
  datatype Outcome =
    | Predicted(items: seq<int>)  // the predicted basket, in ranked order
    | NoneReturned                // an unknown method name: the function falls through
    | UnknownUser                 // the user id is missing from a table that is looked up

  /** The item ids of a ranking, in order (a series' index as a list). */
  function Ids(r: Ranking): seq<int>
  {
    seq(|r|, i requires 0 <= i < |r| => r[i].0)
  }

  /** The item ids of a ranking, as a set. */
  function IdSet(r: Ranking): set<int>
  {
    set p | p in r :: p.0
  }

  /** The ids of the first `k` rows, or of all rows when there are fewer. */
  function Head(r: Ranking, k: nat): (ids: seq<int>)
    ensures |ids| == Min(k, |r|)
    ensures ids == Ids(r)[..|ids|]
  {
    Ids(r[..Min(k, |r|)])
  }

  /** A shorter head is a prefix of a longer one. */
  lemma HeadIsPrefix(r: Ranking, j: nat, k: nat)
    requires j <= k
    ensures |Head(r, j)| <= |Head(r, k)|
    ensures Head(r, j) == Head(r, k)[..|Head(r, j)|]
  {
    var ids := Ids(r);
    assert Head(r, k)[..|Head(r, j)|] == ids[..Min(k, |r|)][..Min(j, |r|)];
  }

  /** The rows of `g` whose item is not in `known`, in their order in `g`. */
  function Unseen(g: Ranking, known: set<int>): (r: Ranking)
    ensures |r| <= |g|
    ensures forall p :: p in r <==> p in g && p.0 !in known
  {
    if g == [] then []
    else (if g[0].0 in known then [] else [g[0]]) + Unseen(g[1..], known)
  }

  /** Filtering keeps the order: it can be done piecewise on a split ranking. */
  lemma {:induction false} UnseenAppend(g1: Ranking, g2: Ranking, known: set<int>)
    ensures Unseen(g1 + g2, known) == Unseen(g1, known) + Unseen(g2, known)
  {
    if g1 != [] {
      assert (g1 + g2)[1..] == g1[1..] + g2;
      UnseenAppend(g1[1..], g2, known);
    } else {
      assert g1 + g2 == g2;
    }
  }

  /** Filtering out nothing leaves the ranking as it is. */
  lemma {:induction false} UnseenNothing(g: Ranking)
    ensures Unseen(g, {}) == g
  {
    if g != [] {
      UnseenNothing(g[1..]);
    }
  }

  /** Rounding up, as the negation of rounding the negation down. */
  function Ceil(x: real): (c: int)
    ensures x <= c as real < x + 1.0
  {
    -((-x).Floor)
  }

  /** Rounding up `x` and rounding down `n - x` always give `n` together. */
  lemma CeilFloorComplement(n: int, x: real)
    ensures Ceil(x) + (n as real - x).Floor == n
  {
    var f := (-x).Floor;
    assert f as real <= -x < f as real + 1.0;
    assert (n + f) as real <= n as real - x < (n + f) as real + 1.0;
  }

  /** The number of repetition items: `ceil(size * repetition)`. */
  function RepetitionQuota(size: nat, repetition: real): (q: nat)
    requires repetition >= 0.0
    ensures size as real * repetition <= q as real < size as real * repetition + 1.0
  {
    var x := size as real * repetition;
    assert x >= 0.0;
    Ceil(x)
  }

  /** The number of exploration items: `floor(size * exploration)`. */
  function ExplorationQuota(size: nat, exploration: real): (q: nat)
    requires exploration >= 0.0
    ensures q as real <= size as real * exploration < q as real + 1.0
  {
    var x := size as real * exploration;
    assert x >= 0.0;
    x.Floor
  }

  /**
   * gpfreq: the head of the user's ranking sized by the repetition quota,
   * followed by the head of the global ranking without the items the user has
   * ever bought, sized by the exploration quota.
   */
  function Guided(user: Ranking, global: Ranking, size: nat, ratio: Ratio): (items: seq<int>)
    requires ratio.repetition >= 0.0 && ratio.exploration >= 0.0
    ensures |items| <= RepetitionQuota(size, ratio.repetition) + ExplorationQuota(size, ratio.exploration)
    ensures forall x :: x in items ==> x in IdSet(user) || x in IdSet(global)
  {
    Head(user, RepetitionQuota(size, ratio.repetition))
      + Head(Unseen(global, IdSet(user)), ExplorationQuota(size, ratio.exploration))
  }

  /**
   * The shape of a gpfreq prediction: up to the repetition quota of items the
   * user has bought, then up to the exploration quota of global items the user
   * has never bought, so that no item falls in both parts.
   */
  lemma GuidedSplit(user: Ranking, global: Ranking, size: nat, ratio: Ratio)
    requires ratio.repetition >= 0.0 && ratio.exploration >= 0.0
    ensures var items, k := Guided(user, global, size, ratio), Min(RepetitionQuota(size, ratio.repetition), |user|);
      && k <= |items|
      && items[..k] == Ids(user)[..k]
      && (forall i :: 0 <= i < k ==> items[i] in IdSet(user))
      && (forall i :: k <= i < |items| ==> items[i] !in IdSet(user) && items[i] in IdSet(global))
      && |items| - k <= ExplorationQuota(size, ratio.exploration)
  {
    var rep := Head(user, RepetitionQuota(size, ratio.repetition));
    var pool := Unseen(global, IdSet(user));
    var expl := Head(pool, ExplorationQuota(size, ratio.exploration));
    var items := rep + expl;
    var k := |rep|;
    forall i | 0 <= i < k ensures items[i] in IdSet(user) {
      assert items[i] == user[i].0 && user[i] in user;
    }
    forall i | k <= i < |items| ensures items[i] !in IdSet(user) && items[i] in IdSet(global) {
      var p := pool[i - k];
      assert items[i] == p.0 && p in pool;
    }
  }

  /** When the two shares add up to one, a gpfreq prediction never exceeds the basket size. */
  lemma GuidedWithinSize(user: Ranking, global: Ranking, size: nat, ratio: Ratio)
    requires ratio.repetition >= 0.0 && ratio.exploration >= 0.0
    requires ratio.repetition + ratio.exploration == 1.0
    ensures |Guided(user, global, size, ratio)| <= size
  {
  }

  /**
   * `count / total < threshold` on the frequency column: a zero total divides
   * to +inf, -inf or nan, of which only -inf is below a threshold.
   */
  predicate BelowShare(count: int, total: int, threshold: real)
    ensures total > 0 ==> (BelowShare(count, total, threshold) <==> count as real < threshold * total as real)
    ensures total < 0 ==> (BelowShare(count, total, threshold) <==> count as real > threshold * total as real)
  {
    if total == 0 then count < 0 else count as real / total as real < threshold
  }

  /** The sum of the counts of a ranking. */
  function Total(r: Ranking): (t: int)
    ensures (forall i :: 0 <= i < |r| ==> r[i].1 >= 0) ==> forall i :: 0 <= i < |r| ==> 0 <= r[i].1 <= t
  {
    if r == [] then 0 else r[0].1 + Total(r[1..])
  }

  /** How many rows of `r` hold a count whose share of `total` is below the threshold. */
  function CountBelow(r: Ranking, total: int, threshold: real): (n: nat)
    ensures n <= |r|
  {
    if r == [] then 0
    else CountBelow(r[..|r| - 1], total, threshold) + (if BelowShare(r[|r| - 1].1, total, threshold) then 1 else 0)
  }

  /** The positions among the first `n` rows of `r` whose share of `total` is below the threshold. */
  function BelowPositions(r: Ranking, n: nat, total: int, threshold: real): set<int>
    requires n <= |r|
  {
    set i | 0 <= i < n && BelowShare(r[i].1, total, threshold)
  }

  /**
   * The basket size after threshold trimming: one less for every row of the
   * untrimmed head whose share is below the threshold; a zero threshold trims nothing.
   */
  function TrimmedSize(user: Ranking, size: nat, threshold: real): (k: nat)
    ensures threshold != 0.0 ==>
      k == size - |BelowPositions(user, Min(size, |user|), Total(user), threshold)|
  {
    var head := user[..Min(size, |user|)];
    if threshold == 0.0 then size
    else
      CountBelowPositions(head, Total(user), threshold);
      assert BelowPositions(head, |head|, Total(user), threshold)
          == BelowPositions(user, |head|, Total(user), threshold);
      size - CountBelow(head, Total(user), threshold)
  }

  /** Counting rows below the threshold one by one gives the number of such positions. */
  lemma {:induction false} CountBelowPositions(r: Ranking, total: int, threshold: real)
    ensures CountBelow(r, total, threshold) == |BelowPositions(r, |r|, total, threshold)|
  {
    if r != [] {
      var n := |r| - 1;
      CountBelowPositions(r[..n], total, threshold);
      assert BelowPositions(r[..n], n, total, threshold) == BelowPositions(r, n, total, threshold);
      if BelowShare(r[n].1, total, threshold) {
        assert BelowPositions(r, |r|, total, threshold) == BelowPositions(r, n, total, threshold) + {n};
      } else {
        assert BelowPositions(r, |r|, total, threshold) == BelowPositions(r, n, total, threshold);
      }
    }
  }

  /**
   * Trimming only shrinks the basket, by at most one per row of the untrimmed
   * head, and a zero threshold leaves it as it is.
   */
  lemma TrimmedSizeBounds(user: Ranking, size: nat, threshold: real)
    ensures size - Min(size, |user|) <= TrimmedSize(user, size, threshold) <= size
    ensures threshold == 0.0 ==> TrimmedSize(user, size, threshold) == size
  {
  }

  /** The trimmed prediction is a prefix of the untrimmed one. */
  lemma TrimmedIsPrefix(user: Ranking, size: nat, threshold: real)
    ensures var trimmed, full := Head(user, TrimmedSize(user, size, threshold)), Head(user, size);
      |trimmed| <= |full| && trimmed == full[..|trimmed|]
  {
    HeadIsPrefix(user, TrimmedSize(user, size, threshold), size);
  }

  /** With a non-zero threshold the whole head is kept exactly when no share in it is below. */
  lemma UntrimmedIff(user: Ranking, size: nat, threshold: real)
    requires threshold != 0.0
    ensures TrimmedSize(user, size, threshold) == size <==>
      forall i :: 0 <= i < Min(size, |user|) ==> !BelowShare(user[i].1, Total(user), threshold)
  {
    var head := user[..Min(size, |user|)];
    NoneBelow(head, Total(user), threshold);
    assert forall i :: 0 <= i < |head| ==> head[i] == user[i];
  }

  /** No row is counted exactly when no row's share is below the threshold. */
  lemma {:induction false} NoneBelow(r: Ranking, total: int, threshold: real)
    ensures CountBelow(r, total, threshold) == 0 <==> forall i :: 0 <= i < |r| ==> !BelowShare(r[i].1, total, threshold)
  {
    if r != [] {
      NoneBelow(r[..|r| - 1], total, threshold);
    }
  }

  /**
   * The threshold step of pfreq/wpfreq: with a non-zero threshold, walks the
   * counts of the untrimmed head and takes one off the size for each count
   * whose share of the user's total is below the threshold.
   */
  method ThresholdSize(user: Ranking, size: nat, threshold: real) returns (k: nat)
    ensures k == TrimmedSize(user, size, threshold)
  {
    k := size;
    if threshold != 0.0 {
      var total := Total(user);
      var head := user[..Min(size, |user|)];
      for i := 0 to |head|
        invariant k == size - CountBelow(head[..i], total, threshold)
      {
        assert head[..i + 1][..i] == head[..i];
        if BelowShare(head[i].1, total, threshold) {
          k := k - 1;
        }
      }
      assert head[..|head|] == head;
    }
  }

  /**
   * prediction: the predicted basket of user `uid` by the method named `name`,
   * sized by the floor of the user's expected basket size.
   */
  method Predict(uid: int, name: string, freqs: FreqTables, basketSize: map<int, real>,
                 ratios: map<int, Ratio>, threshold: real) returns (o: Outcome)
    requires uid in basketSize ==> basketSize[uid] >= 0.0
    requires uid in ratios ==> ratios[uid].repetition >= 0.0 && ratios[uid].exploration >= 0.0
    ensures uid !in basketSize ==> o == UnknownUser
    ensures uid in basketSize && name == "gfreq" ==>
      o == Predicted(Head(freqs.global, basketSize[uid].Floor))
    ensures uid in basketSize && (name == "pfreq" || name == "wpfreq") ==>
      if uid !in freqs.personal then o == UnknownUser
      else o == Predicted(Head(freqs.personal[uid], TrimmedSize(freqs.personal[uid], basketSize[uid].Floor, threshold)))
    ensures uid in basketSize && name == "gpfreq" ==>
      if uid !in ratios || uid !in freqs.personal then o == UnknownUser
      else o == Predicted(Guided(freqs.personal[uid], freqs.global, basketSize[uid].Floor, ratios[uid]))
    ensures uid in basketSize && name !in {"gfreq", "pfreq", "wpfreq", "gpfreq"} ==> o == NoneReturned
  {
    if uid !in basketSize {
      return UnknownUser;
    }
    var size: nat := basketSize[uid].Floor;
    if name == "gfreq" {
      o := Predicted(Head(freqs.global, size));
    } else if name == "pfreq" || name == "wpfreq" {
      if uid !in freqs.personal {
        return UnknownUser;
      }
      var k := ThresholdSize(freqs.personal[uid], size, threshold);
      o := Predicted(Head(freqs.personal[uid], k));
    } else if name == "gpfreq" {
      if uid !in ratios || uid !in freqs.personal {
        return UnknownUser;
      }
      o := Predicted(Guided(freqs.personal[uid], freqs.global, size, ratios[uid]));
    } else {
      o := NoneReturned;
    }
  }
}

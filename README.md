# Next-basket prediction and scoring, modelled in Dafny

This project models the scoring and prediction core of a next-basket
recommender for repeat-purchase retail. Each prediction heuristic guesses a
user's next basket from ranked purchase frequencies. The guess is then
compared with the real basket by one of two Jaccard similarities.

- `similarity.dfy`
  - module `Baskets`: baskets as lists of item ids, the list `count`, and a
    ratio lemma shared by both files below.
  - module `Similarity`: the set Jaccard similarity (`jaccard_rd1`), a pure
    function. The multiset Jaccard similarity (`jaccard_rd2`), a method whose
    loop walks the distinct items in an unspecified order. That method is
    proved equal to a mathematical definition: a sum over the set of distinct
    items.
- `exploration.dfy`, module `Exploration`: the exploration ratio
  (`expl_ratio`). It is a method whose loops grow the set of items bought so
  far and the two counters. It is proved equal to recursive definitions over
  the order history, oldest basket first.
- `prediction.dfy`, module `Prediction`: the four prediction methods
  (`prediction`).
  - `gfreq` is a prefix of the global ranking.
  - `pfreq` and `wpfreq` are a prefix of the user's ranking. With a non-zero
    threshold, that prefix is shortened by a loop (method `ThresholdSize`).
  - `gpfreq` is a repetition prefix of the user's ranking followed by an
    exploration prefix of the global ranking, filtered to items the user never
    bought.

A pandas frequency series becomes a `Ranking`: a sequence of (item id, count)
rows, already in ranked order. `head(k)` is the prefix of length `min(k, n)`.
`.loc[uid]` is a lookup in a `map`. A missing user id (a `KeyError` in the
code) is the outcome `UnknownUser`. An unknown method name makes the code fall
through and return `None`; here that is the outcome `NoneReturned`.
Divisions are exact `real` quotients. The ceiling is `-((-x).Floor)`.

Where a denominator is zero, the code raises `ZeroDivisionError`. Those cases
are preconditions here. Returning 0 would be an alternative convention; the
code does not implement it, and the model follows the code.

The threshold step decrements the size once for every row of the untrimmed
head whose share is below the threshold, wherever that row stands, and then
cuts the head to the new size. It does not remove the low rows themselves. On
a ranking sorted by count these are the same rows; the model keeps the code's
behaviour for any order.

## Model

| member | source | states |
|---|---|---|
| `Similarity.JaccardSet` | common.py:4-7 | Result lies in [0, 1]. It is 1 exactly when the two baskets hold the same distinct items, so a non-empty basket scores 1 against itself. Requires a non-empty basket, because the union is otherwise empty and the division fails. |
| `Similarity.JaccardSetSymmetric` | common.py:4-7 | The set similarity does not depend on the order of the two baskets. |
| `Similarity.JaccardSetExample` | common.py:4-7 | {1,2,3} against {2,3,4} scores 0.5. |
| `Baskets.CountPositive` | common.py:16-17 | An item's count in a basket is positive exactly when the basket holds it. |
| `Baskets.CountDistinct` | common.py:16-17 | In a basket without repeated items, every count is 0 or 1. |
| `Similarity.SumOverRemove` | common.py:15-19 | Summing over a set gives the same total whichever element is taken first, so the unspecified order of the set walk does not matter. |
| `Similarity.JaccardMultiset` | common.py:10-20 | The loop's result equals the sum of per-item minimum counts over the sum of per-item maximum counts, taken over the distinct items of both baskets. The result lies in [0, 1]. |
| `Similarity.MaxCountSumPositive` | common.py:13-20 | Once either basket is non-empty, the denominator is at least the number of distinct items, hence positive. |
| `Similarity.MultisetJaccardBounds` | common.py:15-20 | Because min ≤ max for every item, the numerator never exceeds the denominator, and the multiset similarity lies in [0, 1]. |
| `Similarity.MultisetJaccardSymmetric` | common.py:10-20 | The multiset similarity does not depend on the order of the two baskets. |
| `Similarity.MultisetJaccardSelf` | common.py:10-20 | A non-empty basket scores 1 against itself. |
| `Similarity.MultisetJaccardOfDistinct` | common.py:4-20 | When neither basket repeats an item, the multiset similarity equals the set similarity. |
| `Similarity.MultisetJaccardExample` | common.py:10-20 | [1,1,2] against [1,2,2] scores (1+1)/(2+2) = 0.5. |
| `Exploration.ExplRatio` | common.py:23-38 | After each basket, the bought-before set equals the union of the baskets walked so far. The loop's result equals first purchases in the window over distinct items in the window, and it lies in [0, 1]. Requires a window with at least one item, because the division fails otherwise. `lastN` defaults to 1, as `last_n` does. |
| `Exploration.ExplCountAtMostTotal` | common.py:30-35 | Counted first purchases never outnumber the distinct items counted in the window. |
| `Exploration.ExplorationRatioBounds` | common.py:38 | The exploration ratio lies in [0, 1]. |
| `Exploration.WindowStart` | common.py:30 | Basket i is in the window (`len - i <= last_n`) exactly when i is at or after the window's first index. |
| `Exploration.BoughtMembers` | common.py:24-36 | An item is in the bought-before set after k baskets exactly when one of those k baskets holds it. |
| `Exploration.BoughtGrows` | common.py:36 | The bought-before set only grows. |
| `Exploration.ExplCountIsNewInWindow` | common.py:28-36 | The counter equals the number of items bought by the end of the history that were not bought before the window. |
| `Exploration.NewInWindowMembers` | common.py:28-36 | An item is counted exactly when some basket in the window holds it and no earlier basket does. |
| `Exploration.NewSinceGrows` | common.py:32-36 | Each windowed basket adds exactly its first purchases to the items that are new since the window began. |
| `Exploration.ExplCountBeforeWindow` | common.py:30-35 | Baskets before the window add nothing to either counter. |
| `Exploration.DuplicatesIgnored` | common.py:29 | Repeating an item inside a basket changes neither the bought-before set, nor the counters, nor therefore the ratio. |
| `Exploration.ExplorationRatioExample` | common.py:23-38 | [[1,2],[1,3],[2,3,4]] with `last_n = 1` counts 3 items in the window and gives 1/3. |
| `Prediction.Predict` | common.py:41-62 | A missing user id gives `UnknownUser`. `gfreq` is the first floor(size) ids of the global ranking and depends on the user only through the basket size. `pfreq`/`wpfreq` is the head of the user's ranking at the trimmed size. `gpfreq` is the guided prediction. Any other name returns nothing. |
| `Prediction.Head` | common.py:45 | `head(k).index.to_list()`, also at lines 53, 60 and 61: it returns min(k, n) ids, and they are the ranking's ids from the top, in order. |
| `Prediction.HeadIsPrefix` | common.py:45 | A shorter head of a ranking is a prefix of a longer one. |
| `Prediction.ThresholdSize` | common.py:48-52 | The loop's size equals the original size minus the number of head rows whose share of the user's total is below the threshold. A zero threshold leaves the size unchanged. |
| `Prediction.Total` | common.py:49 | The `.sum()` of the user's counts: when no count is negative, every count lies between 0 and the total, so every share is at most 1. |
| `Prediction.BelowShare` | common.py:51 | `count/total < threshold`: for a positive total this holds exactly when count < threshold·total, and for a negative total exactly when count > threshold·total. A zero total follows numpy's inf/nan results: only a negative count counts as below. |
| `Prediction.TrimmedSize` | common.py:48-53 | With a non-zero threshold, the trimmed size is the original size minus the number of positions in the untrimmed head whose share is below the threshold. |
| `Prediction.CountBelowPositions` | common.py:50-52 | Counting below-threshold rows one at a time gives exactly the number of below-threshold positions. |
| `Prediction.CountBelow` | common.py:50-52 | Rows below the threshold are at most the number of rows walked. |
| `Prediction.TrimmedSizeBounds` | common.py:48-53 | The trimmed size lies between the original size minus the head's length and the original size. It can only shrink, never below zero, and a zero threshold leaves it unchanged. |
| `Prediction.TrimmedIsPrefix` | common.py:50-53 | The trimmed prediction is a prefix of the untrimmed head and never longer. |
| `Prediction.UntrimmedIff` | common.py:48-52 | With a non-zero threshold, the size stays unchanged exactly when no row of the head has a share below the threshold. |
| `Prediction.NoneBelow` | common.py:50-51 | No row is counted exactly when no row's share is below the threshold. |
| `Prediction.Unseen` | common.py:61 | The filtered global ranking holds exactly the global rows whose item the user never bought, and it is no longer than the global ranking. |
| `Prediction.UnseenAppend` | common.py:61 | Filtering keeps global order: filtering a concatenation gives the concatenation of the filtered parts. |
| `Prediction.UnseenNothing` | common.py:61 | A user who has bought nothing leaves the global ranking unfiltered. |
| `Prediction.Ceil` | common.py:58 | `np.ceil`: the result is the least integer not below x, i.e. x ≤ ceil(x) < x + 1. |
| `Prediction.RepetitionQuota` | common.py:58 | The repetition quota is ceil(n·r): n·r ≤ quota < n·r + 1. |
| `Prediction.ExplorationQuota` | common.py:59 | The exploration quota is floor(n·e): quota ≤ n·e < quota + 1. |
| `Prediction.Guided` | common.py:58-62 | A gpfreq prediction is no longer than the two quotas together, and each of its ids is in the user's ranking or in the global ranking. |
| `Prediction.CeilFloorComplement` | common.py:58-59 | ceil(x) + floor(n - x) = n for every integer n. |
| `Prediction.GuidedSplit` | common.py:55-62 | A gpfreq prediction starts with at most ceil(n·r) ids, which are the user's top items in order. At most floor(n·e) ids follow, and each is a global item the user never bought. So no item appears in both parts. |
| `Prediction.GuidedWithinSize` | common.py:56-59 | When the repetition and exploration shares sum to 1, a gpfreq prediction is no longer than the basket size. |

## Left out

- `pred`, `evaluate`, `dataframe_prediction` and `dataframe_score` (common.py:65-89) are left out. They are pandas `apply`/`assign`/`mean` plumbing that maps the functions above over the rows of a table.
- Float rounding is left out. Shares, quotas and the ceiling/floor of `pred_bskt_size * ratio` are exact `real` arithmetic.
- The `map(int, ...)` coercions are left out. Item ids are integers from the start.
- Building the frequency, ratio and basket-size tables, and their tie-breaks, is left out. Rankings are given as sequences in ranked order.
- Negative `head(k)` arguments are left out. The requested user's expected basket size and ratios are required to be non-negative, so every `head` argument is a natural number.
- The shape of the `freqs` argument is simplified. The code passes a global series for `gfreq`, a per-user frame for `pfreq`/`wpfreq` and a pair for `gpfreq`. Here every method reads one record that holds the per-user rankings and the global ranking. `pfreq` and `wpfreq` differ only in which per-user ranking the caller supplies.
- `threshold = None` is modelled as `0.0`; both are false in the code's `if threshold:`.
- `count / total` with a zero total follows numpy int64 division: +inf, -inf or nan, of which only -inf is below the threshold.
- The iteration order of Python sets is left out. The loops pick the next element with `:|`, and the proofs hold for every order.

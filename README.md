# PatchFinder evaluation metrics, modelled in Dafny

PatchFinder ranks candidate commits for each CVE by a classifier's score.
Its evaluation script, `PatchFinder/Phase-2/RQ2_Ablation/diff_only/evaluate_diff.py`,
has two steps:

1. It groups the scored candidates of every test batch by CVE id (`evaluate`).
2. It ranks each CVE's candidates and computes the retrieval metrics (`compute_metrics`).

This project models both steps and proves their properties.

- **Grouping.** `evaluate` keeps a dictionary `cve_data`. For each scored candidate,
  `setdefault(cve, []).append((output, label))` adds it to its CVE's list.
  CVEs keep first-seen order and candidates keep arrival order.
  - Module `Grouping`.
  - `CveData` is the dictionary as a class, with fields `keys` (insertion order) and `lists`.
  - `Record` models the `setdefault … append` statement.
  - `RecordBatch` and `GroupBatches` model the loops over the batches and over the `zip` of each batch.
  - `KeysOf`, `ItemsOf` and `Grouped` state the dictionary the loops must produce.
- **Ranking.** `compute_metrics` sorts each CVE's list in place, by score, descending.
  Python's sort is stable.
  - Module `Ranking`.
  - `SortDesc` is that stable sort, written as an insertion sort.
  - `SortDescStable` and `StableSortIsUnique` prove that any stable descending sort gives the same list.
  - Ranks are 1-based positions. `PositiveRanks` returns the ranks of the candidates labelled 1.
  - `RankRows` produces one `(cve, rank, label)` row per candidate.
- **Metrics.** For every threshold `k` in `k_values`, each CVE contributes three values:
  - recall@k: the share of its positive ranks that are strictly below `k`, or 0 without positives;
  - min_rank_within_k: its best positive rank below `k`, or else `k`;
  - the mean of `1/rank` over its positives, or 0 without positives (this is the CVE's share of MRR).

  The three results are unweighted means over the CVEs, with `0` for an empty list.
  These per-CVE functions and the averages are in module `Metrics`.
- **The loop.** `Evaluation.ComputeMetrics` runs the loop of `compute_metrics`: in place, over the dictionary.
  - It appends to the dictionaries of lists and updates the two counters.
  - It returns the three averages and the rank table.
  - Its postcondition ties each result to the pure functions of `Metrics`.
  - `Evaluation.Evaluate` chains grouping and metrics.
- **Scores.** Scores are integers. The metrics only compare scores, so any order-preserving scaling of the classifier's outputs gives the same results.
- **Worked examples.** `Scenarios` holds small examples: stability of ties, strict recall, the effort fallback, MRR 0.625, empty input, and two CVEs end to end.

## Model

| member | source | states |
|---|---|---|
| Grouping.CveData.Record | PatchFinder/Phase-2/RQ2_Ablation/diff_only/evaluate_diff.py:185 | an unseen CVE is added at the end of the key order with a one-element list; a seen CVE keeps its place and its list gains the new (score, label) at the end; every other entry is unchanged; keys stay distinct and equal to the map's domain |
| Grouping.CveData.constructor | PatchFinder/Phase-2/RQ2_Ablation/diff_only/evaluate_diff.py:176 | `cve_data = {}`: no keys, empty map |
| Grouping.Zip | PatchFinder/Phase-2/RQ2_Ablation/diff_only/evaluate_diff.py:184 | `zip` stops at the shortest of the three columns; element i is (cve i, output i, label i) |
| Grouping.RecordBatch | PatchFinder/Phase-2/RQ2_Ablation/diff_only/evaluate_diff.py:184-185 | after the loop over a batch, the dictionary is the grouping of everything seen so far followed by the batch |
| Grouping.GroupBatches | PatchFinder/Phase-2/RQ2_Ablation/diff_only/evaluate_diff.py:176-185 | after all batches the dictionary's keys are the CVE ids in first-seen order and each list holds that CVE's candidates in arrival order |
| Grouping.KeysOf | PatchFinder/Phase-2/RQ2_Ablation/diff_only/evaluate_diff.py:185 | the key order never repeats a CVE |
| Grouping.KeysOfMembers | PatchFinder/Phase-2/RQ2_Ablation/diff_only/evaluate_diff.py:185 | a CVE is a key exactly when some candidate carries it |
| Grouping.KeysOfFirstSeen | PatchFinder/Phase-2/RQ2_Ablation/diff_only/evaluate_diff.py:185 | keys are in first-seen order: for keys i < j, the stream carries key i at some position before key j first appears |
| Grouping.ItemsOfNonEmpty | PatchFinder/Phase-2/RQ2_Ablation/diff_only/evaluate_diff.py:185 | a CVE's list is non-empty exactly when the CVE is a key |
| Grouping.GroupedNonEmpty | PatchFinder/Phase-2/RQ2_Ablation/diff_only/evaluate_diff.py:185 | the dictionary's domain is the key set and every list in it is non-empty |
| Grouping.ItemsOfSnoc | PatchFinder/Phase-2/RQ2_Ablation/diff_only/evaluate_diff.py:185 | one more candidate extends only its own CVE's list, at the end |
| Grouping.GroupedSnoc | PatchFinder/Phase-2/RQ2_Ablation/diff_only/evaluate_diff.py:185 | the grouping of a stream plus one candidate is the grouping of the stream with that candidate's list extended, and a new key appended only for an unseen CVE |
| Grouping.GroupedTotal | PatchFinder/Phase-2/RQ2_Ablation/diff_only/evaluate_diff.py:184-185 | the lists together hold exactly as many candidates as the stream |
| Grouping.TotalItemsGrow | PatchFinder/Phase-2/RQ2_Ablation/diff_only/evaluate_diff.py:185 | appending to one existing list grows the total by one |
| Grouping.TotalItemsNew | PatchFinder/Phase-2/RQ2_Ablation/diff_only/evaluate_diff.py:185 | a new key with list v adds the length of v to the total |
| Grouping.TotalSeenCve | PatchFinder/Phase-2/RQ2_Ablation/diff_only/evaluate_diff.py:185 | a candidate of a known CVE grows the total by one |
| Grouping.TotalNewCve | PatchFinder/Phase-2/RQ2_Ablation/diff_only/evaluate_diff.py:185 | a candidate of a new CVE grows the total by one |
| Grouping.CveData.SortGroup | PatchFinder/Phase-2/RQ2_Ablation/diff_only/evaluate_diff.py:119 | the list of one CVE is replaced by its stable descending sort, in place; keys and other lists unchanged |
| Ranking.InsertByScore | PatchFinder/Phase-2/RQ2_Ablation/diff_only/evaluate_diff.py:119 | inserting behind every item of equal or higher score adds exactly that item (multiset) |
| Ranking.SortDesc | PatchFinder/Phase-2/RQ2_Ablation/diff_only/evaluate_diff.py:119 | the sorted list is a permutation of the input (same multiset, same length) |
| Ranking.InsertSorted | PatchFinder/Phase-2/RQ2_Ablation/diff_only/evaluate_diff.py:119 | insertion keeps a list sorted by score, descending |
| Ranking.SortDescSorted | PatchFinder/Phase-2/RQ2_Ablation/diff_only/evaluate_diff.py:119 | the sorted list is in descending score order |
| Ranking.WithScoreMembers | PatchFinder/Phase-2/RQ2_Ablation/diff_only/evaluate_diff.py:119 | the items of one score are exactly the members with that score |
| Ranking.WithScoreAppend | PatchFinder/Phase-2/RQ2_Ablation/diff_only/evaluate_diff.py:119 | selecting one score distributes over concatenation |
| Ranking.WithScoreBelow | PatchFinder/Phase-2/RQ2_Ablation/diff_only/evaluate_diff.py:119 | a descending list headed by a lower score holds no item of score v |
| Ranking.InsertBehindHead | PatchFinder/Phase-2/RQ2_Ablation/diff_only/evaluate_diff.py:119 | inserting behind the head keeps each score class's order of the tail |
| Ranking.InsertInFront | PatchFinder/Phase-2/RQ2_Ablation/diff_only/evaluate_diff.py:119 | an item scoring above the whole list goes in front and changes no other score class |
| Ranking.InsertStable | PatchFinder/Phase-2/RQ2_Ablation/diff_only/evaluate_diff.py:119 | inserting into a sorted list puts the new item after every earlier item of the same score |
| Ranking.SortDescStable | PatchFinder/Phase-2/RQ2_Ablation/diff_only/evaluate_diff.py:119 | stability: for every score, the items with that score keep their original relative order |
| Ranking.LastScoreLowest | PatchFinder/Phase-2/RQ2_Ablation/diff_only/evaluate_diff.py:119 | the last item of a descending list has the lowest score |
| Ranking.SameLast | PatchFinder/Phase-2/RQ2_Ablation/diff_only/evaluate_diff.py:119 | two descending lists with the same score classes end with the same item |
| Ranking.SameInitClasses | PatchFinder/Phase-2/RQ2_Ablation/diff_only/evaluate_diff.py:119 | dropping that common last item keeps the score classes equal |
| Ranking.SameScoreClassesEqual | PatchFinder/Phase-2/RQ2_Ablation/diff_only/evaluate_diff.py:119 | two descending lists with the same items of each score, in the same order, are equal |
| Ranking.StableSortIsUnique | PatchFinder/Phase-2/RQ2_Ablation/diff_only/evaluate_diff.py:119 | any stable descending sort of the list is `SortDesc` of it: the model's sort is the one `list.sort(reverse=True)` performs |
| Ranking.CountPositivesAppend | PatchFinder/Phase-2/RQ2_Ablation/diff_only/evaluate_diff.py:126 | the positives of a concatenation are those of both parts |
| Ranking.InsertCountPositives | PatchFinder/Phase-2/RQ2_Ablation/diff_only/evaluate_diff.py:119-126 | insertion adds one positive exactly when the inserted item has label 1 |
| Ranking.SortDescCountPositives | PatchFinder/Phase-2/RQ2_Ablation/diff_only/evaluate_diff.py:119-126 | sorting keeps the number of positives |
| Ranking.PositiveRanks | PatchFinder/Phase-2/RQ2_Ablation/diff_only/evaluate_diff.py:126 | there is one positive rank per candidate labelled 1 |
| Ranking.PositiveRanksSnoc | PatchFinder/Phase-2/RQ2_Ablation/diff_only/evaluate_diff.py:126 | one more candidate adds its rank exactly when it is labelled 1 |
| Ranking.PositiveRanksRelevant | PatchFinder/Phase-2/RQ2_Ablation/diff_only/evaluate_diff.py:120-126 | each positive rank r is at most the list length and the candidate at position r has label 1 |
| Ranking.PositiveRanksComplete | PatchFinder/Phase-2/RQ2_Ablation/diff_only/evaluate_diff.py:120-126 | every candidate with label 1 at position i has its rank i + 1 among the positive ranks |
| Ranking.PositiveRanksAscending | PatchFinder/Phase-2/RQ2_Ablation/diff_only/evaluate_diff.py:120-126 | positive ranks are strictly increasing |
| Ranking.RankRowsAgree | PatchFinder/Phase-2/RQ2_Ablation/diff_only/evaluate_diff.py:120-126 | one row per candidate, row i has rank i + 1 and that candidate's own label; a row with label 1 and rank r exists exactly when r is a positive rank |
| Metrics.Below | PatchFinder/Phase-2/RQ2_Ablation/diff_only/evaluate_diff.py:129-133 | the positive ranks kept are exactly those strictly below k; all are kept exactly when all are below k |
| Metrics.TopKCount | PatchFinder/Phase-2/RQ2_Ablation/diff_only/evaluate_diff.py:129 | `top_k_counts` is at most the number of positives; it equals it exactly when all are below k and is 0 exactly when none is |
| Metrics.Recall | PatchFinder/Phase-2/RQ2_Ablation/diff_only/evaluate_diff.py:129-130 | recall@k lies in [0, 1]; it is 0 exactly when no positive rank is strictly below k (including no positives) and 1 exactly when there are positives and all are below k |
| Metrics.BelowMonotone | PatchFinder/Phase-2/RQ2_Ablation/diff_only/evaluate_diff.py:129 | a larger k keeps at least as many positive ranks |
| Metrics.RecallMonotone | PatchFinder/Phase-2/RQ2_Ablation/diff_only/evaluate_diff.py:129-130 | recall@k is nondecreasing in k |
| Metrics.MinOf | PatchFinder/Phase-2/RQ2_Ablation/diff_only/evaluate_diff.py:133 | `min` of a non-empty list is a member no greater than any element |
| Metrics.MinRankWithinK | PatchFinder/Phase-2/RQ2_Ablation/diff_only/evaluate_diff.py:132-135 | the value is k exactly when no positive rank is below k (including no positives); otherwise it is the smallest positive rank; for k at least 1 it lies in [1, k] |
| Metrics.ReciprocalBounds | PatchFinder/Phase-2/RQ2_Ablation/diff_only/evaluate_diff.py:146 | 1/rank lies in (0, 1] |
| Metrics.SumReciprocals | PatchFinder/Phase-2/RQ2_Ablation/diff_only/evaluate_diff.py:146-147 | the sum of reciprocal ranks is in (0, n] for n positives and 0 without |
| Metrics.ReciprocalRankMean | PatchFinder/Phase-2/RQ2_Ablation/diff_only/evaluate_diff.py:146-147 | a CVE's MRR contribution is in (0, 1] when it has positives and 0 otherwise |
| Metrics.SumBounds | PatchFinder/Phase-2/RQ2_Ablation/diff_only/evaluate_diff.py:149-151 | a sum of n values in [lo, hi] lies in [n lo, n hi] |
| Metrics.SumIntBounds | PatchFinder/Phase-2/RQ2_Ablation/diff_only/evaluate_diff.py:151 | the same for integer sums |
| Metrics.MeanBounds | PatchFinder/Phase-2/RQ2_Ablation/diff_only/evaluate_diff.py:149-150 | a mean of values in [lo, hi] lies in [lo, hi] |
| Metrics.MeanIntBounds | PatchFinder/Phase-2/RQ2_Ablation/diff_only/evaluate_diff.py:151 | a mean of integers in [lo, hi] lies in [lo, hi] |
| Metrics.SumMonotone | PatchFinder/Phase-2/RQ2_Ablation/diff_only/evaluate_diff.py:149 | pointwise larger values have a larger sum |
| Metrics.AverageRecallBounds | PatchFinder/Phase-2/RQ2_Ablation/diff_only/evaluate_diff.py:149 | average recall@k is in [0, 1] and is 0 without CVEs |
| Metrics.AverageRecallMonotone | PatchFinder/Phase-2/RQ2_Ablation/diff_only/evaluate_diff.py:149 | average recall@k is nondecreasing in k |
| Metrics.AverageMrrBounds | PatchFinder/Phase-2/RQ2_Ablation/diff_only/evaluate_diff.py:150 | average MRR is in [0, 1] and is 0 without CVEs |
| Metrics.AverageManualEffortBounds | PatchFinder/Phase-2/RQ2_Ablation/diff_only/evaluate_diff.py:151 | average manual effort@k is in [1, k] when there is a CVE and k is at least 1, and 0 without CVEs |
| Metrics.SumAppend | PatchFinder/Phase-2/RQ2_Ablation/diff_only/evaluate_diff.py:149 | sums split over concatenation |
| Metrics.SumIntAppend | PatchFinder/Phase-2/RQ2_Ablation/diff_only/evaluate_diff.py:151 | integer sums split over concatenation |
| Metrics.RepeatSum | PatchFinder/Phase-2/RQ2_Ablation/diff_only/evaluate_diff.py:128-130 | m copies of x sum to m times x |
| Metrics.RepeatSumInt | PatchFinder/Phase-2/RQ2_Ablation/diff_only/evaluate_diff.py:137 | the same for integers |
| Metrics.SpreadLength | PatchFinder/Phase-2/RQ2_Ablation/diff_only/evaluate_diff.py:128 | a threshold listed m times collects m entries per CVE |
| Metrics.SpreadSum | PatchFinder/Phase-2/RQ2_Ablation/diff_only/evaluate_diff.py:128-130 | the list of a threshold listed m times sums to m times the sum over CVEs |
| Metrics.SpreadSumInt | PatchFinder/Phase-2/RQ2_Ablation/diff_only/evaluate_diff.py:137 | the same for manual efforts |
| Metrics.SpreadMean | PatchFinder/Phase-2/RQ2_Ablation/diff_only/evaluate_diff.py:149 | listing a threshold more than once in `k_values` does not change its average recall |
| Metrics.SpreadMeanInt | PatchFinder/Phase-2/RQ2_Ablation/diff_only/evaluate_diff.py:151 | nor its average manual effort |
| Metrics.SpreadOnce | PatchFinder/Phase-2/RQ2_Ablation/diff_only/evaluate_diff.py:128 | a threshold listed once collects exactly one entry per CVE |
| Grouping.Stream | PatchFinder/Phase-2/RQ2_Ablation/diff_only/evaluate_diff.py:184 | definition: the scored candidates of every batch's `zip`, batch after batch, in loop order |
| Grouping.ItemsOf | PatchFinder/Phase-2/RQ2_Ablation/diff_only/evaluate_diff.py:185 | definition: the (score, label) pairs of one CVE, in arrival order |
| Grouping.Grouped | PatchFinder/Phase-2/RQ2_Ablation/diff_only/evaluate_diff.py:176-185 | definition: the dictionary `cve_data` after the loop, mapping each key of `KeysOf` to its `ItemsOf` list |
| Ranking.CountPositives | PatchFinder/Phase-2/RQ2_Ablation/diff_only/evaluate_diff.py:126 | definition: the number of candidates whose label equals 1 |
| Ranking.RankRows | PatchFinder/Phase-2/RQ2_Ablation/diff_only/evaluate_diff.py:120-123 | definition: row i is (cve, i + 1, label of the i-th candidate of the sorted list) |
| Evaluation.RankTable | PatchFinder/Phase-2/RQ2_Ablation/diff_only/evaluate_diff.py:116-123 | definition: `rank_data`, the rows of every CVE's sorted list, CVE after CVE in key order |
| Evaluation.GroupPositiveRanks | PatchFinder/Phase-2/RQ2_Ablation/diff_only/evaluate_diff.py:118-126 | definition: `positive_ranks` of every CVE's sorted list, in key order |
| Metrics.Mean | PatchFinder/Phase-2/RQ2_Ablation/diff_only/evaluate_diff.py:147 | definition: `sum(xs) / len(xs) if xs else 0`, exact in reals |
| Metrics.MeanInt | PatchFinder/Phase-2/RQ2_Ablation/diff_only/evaluate_diff.py:151 | definition: the same average of a list of integers, divided exactly |
| Metrics.RecallsAt | PatchFinder/Phase-2/RQ2_Ablation/diff_only/evaluate_diff.py:129-130 | definition: recall@k of each CVE, one entry per CVE in key order |
| Metrics.EffortsAt | PatchFinder/Phase-2/RQ2_Ablation/diff_only/evaluate_diff.py:132-137 | definition: min_rank_within_k of each CVE, one entry per CVE |
| Metrics.ReciprocalRankMeans | PatchFinder/Phase-2/RQ2_Ablation/diff_only/evaluate_diff.py:146-147 | definition: `mrrs`, each CVE's mean reciprocal rank |
| Metrics.AverageRecall | PatchFinder/Phase-2/RQ2_Ablation/diff_only/evaluate_diff.py:149 | definition: `avg_recalls[k]`, the mean of the CVEs' recall@k |
| Metrics.AverageMrr | PatchFinder/Phase-2/RQ2_Ablation/diff_only/evaluate_diff.py:150 | definition: `avg_mrr`, the mean of `mrrs` |
| Metrics.AverageManualEffort | PatchFinder/Phase-2/RQ2_Ablation/diff_only/evaluate_diff.py:151 | definition: `avg_manual_efforts[k]`, the mean of the CVEs' min_rank_within_k |
| Evaluation.AppendEach | PatchFinder/Phase-2/RQ2_Ablation/diff_only/evaluate_diff.py:137 | definition: the `for k in k_values` loop's `append` to the list at each listed k, in order |
| Evaluation.Bump | PatchFinder/Phase-2/RQ2_Ablation/diff_only/evaluate_diff.py:139-140 | definition: one `+=` on the counter at k |
| Evaluation.AddEach | PatchFinder/Phase-2/RQ2_Ablation/diff_only/evaluate_diff.py:139-140 | definition: the loop's `+=` on the counter at each listed k, in order |
| Evaluation.RecallLists | PatchFinder/Phase-2/RQ2_Ablation/diff_only/evaluate_diff.py:111-130 | definition: `recalls` after the first g CVEs: empty lists per k, then each CVE's `k` loop |
| Evaluation.EffortLists | PatchFinder/Phase-2/RQ2_Ablation/diff_only/evaluate_diff.py:113-137 | definition: `manual_efforts` after the first g CVEs |
| Evaluation.EffortSums | PatchFinder/Phase-2/RQ2_Ablation/diff_only/evaluate_diff.py:114-139 | definition: `manual_efforts_sum` after the first g CVEs |
| Evaluation.EffortCounts | PatchFinder/Phase-2/RQ2_Ablation/diff_only/evaluate_diff.py:115-140 | definition: `manual_efforts_count` after the first g CVEs |
| Evaluation.AppendCveMetrics | PatchFinder/Phase-2/RQ2_Ablation/diff_only/evaluate_diff.py:128-140 | the `for k in k_values` loop appends recall@k and min_rank_within_k to `recalls[k]` and `manual_efforts[k]`, adds the effort to `manual_efforts_sum[k]` and 1 to `manual_efforts_count[k]`, once per listed k |
| Evaluation.AppendEachAt | PatchFinder/Phase-2/RQ2_Ablation/diff_only/evaluate_diff.py:128-137 | after that loop, `recalls[k]` has gained one copy of this CVE's value per occurrence of k in `k_values`; the keys are unchanged |
| Evaluation.AddEachKeys | PatchFinder/Phase-2/RQ2_Ablation/diff_only/evaluate_diff.py:139-140 | the counter updates keep the counters' keys |
| Evaluation.AddEachTracks | PatchFinder/Phase-2/RQ2_Ablation/diff_only/evaluate_diff.py:137-140 | if `manual_efforts_sum[k]` and `manual_efforts_count[k]` are the sum and length of `manual_efforts[k]` before the loop, they still are after it |
| Evaluation.TurnStep | PatchFinder/Phase-2/RQ2_Ablation/diff_only/evaluate_diff.py:128-140 | one turn of the `k` loop appends at k and bumps the counters at k |
| Evaluation.ListsKeys | PatchFinder/Phase-2/RQ2_Ablation/diff_only/evaluate_diff.py:111-115 | after any number of CVEs, every threshold is a key of all four dictionaries |
| Evaluation.RecallListsSpread | PatchFinder/Phase-2/RQ2_Ablation/diff_only/evaluate_diff.py:128-130 | after g CVEs, `recalls[k]` is the per-CVE recall@k of those CVEs in order, once per occurrence of k in `k_values` |
| Evaluation.EffortListsSpread | PatchFinder/Phase-2/RQ2_Ablation/diff_only/evaluate_diff.py:128-137 | the same for `manual_efforts[k]` and min_rank_within_k |
| Evaluation.SpreadStep | PatchFinder/Phase-2/RQ2_Ablation/diff_only/evaluate_diff.py:128-137 | one CVE's turn extends that spread list by the CVE's own value |
| Evaluation.SumsTrackTurn | PatchFinder/Phase-2/RQ2_Ablation/diff_only/evaluate_diff.py:137-140 | one CVE's turn keeps every sum and count equal to the sum and length of its effort list |
| Evaluation.EffortSumsTrack | PatchFinder/Phase-2/RQ2_Ablation/diff_only/evaluate_diff.py:137-140 | after any number of CVEs, `manual_efforts_sum[k]` is the sum of `manual_efforts[k]` and `manual_efforts_count[k]` its length |
| Evaluation.EffortTotals | PatchFinder/Phase-2/RQ2_Ablation/diff_only/evaluate_diff.py:137-140 | after g CVEs, `manual_efforts_count[k]` is g times the number of times k is listed in `k_values` (the number of CVEs when k is listed once), and `manual_efforts_sum[k]` is that multiple of the sum of the CVEs' min_rank_within_k |
| Evaluation.EffortSumsStep | PatchFinder/Phase-2/RQ2_Ablation/diff_only/evaluate_diff.py:137-140 | that agreement survives one more CVE |
| Evaluation.RecallAverageAt | PatchFinder/Phase-2/RQ2_Ablation/diff_only/evaluate_diff.py:149 | the mean of `recalls[k]` after all CVEs is the average recall@k over the CVEs |
| Evaluation.EffortAverageAt | PatchFinder/Phase-2/RQ2_Ablation/diff_only/evaluate_diff.py:151 | the mean of `manual_efforts[k]` is the average manual effort@k over the CVEs |
| Evaluation.RecallAverages | PatchFinder/Phase-2/RQ2_Ablation/diff_only/evaluate_diff.py:149 | the comprehension `avg_recalls` equals the average recall@k per listed k |
| Evaluation.EffortAverages | PatchFinder/Phase-2/RQ2_Ablation/diff_only/evaluate_diff.py:151 | the comprehension `avg_manual_efforts` equals the average manual effort@k per listed k |
| Evaluation.RankTableSize | PatchFinder/Phase-2/RQ2_Ablation/diff_only/evaluate_diff.py:122-123 | the rank table has one row per stored candidate |
| Evaluation.RankTableStep | PatchFinder/Phase-2/RQ2_Ablation/diff_only/evaluate_diff.py:118-123 | the table after g + 1 CVEs is the table after g followed by the rows of CVE g's sorted list |
| Evaluation.AppendRankRows | PatchFinder/Phase-2/RQ2_Ablation/diff_only/evaluate_diff.py:122-123 | the row loop appends one CVE's rows, in rank order |
| Evaluation.SortedUpToStep | PatchFinder/Phase-2/RQ2_Ablation/diff_only/evaluate_diff.py:118-119 | sorting the next CVE's list changes that entry only |
| Evaluation.SortedUpToAll | PatchFinder/Phase-2/RQ2_Ablation/diff_only/evaluate_diff.py:118-119 | after the loop every list of the dictionary is sorted |
| Evaluation.SortTurn | PatchFinder/Phase-2/RQ2_Ablation/diff_only/evaluate_diff.py:118-123 | sorts CVE g's list in place and appends its rank rows |
| Evaluation.ListsStep | PatchFinder/Phase-2/RQ2_Ablation/diff_only/evaluate_diff.py:128-140 | the four dictionaries after g + 1 CVEs are those after g with CVE g's turn of the `k` loop applied |
| Evaluation.MetricsTurn | PatchFinder/Phase-2/RQ2_Ablation/diff_only/evaluate_diff.py:126-147 | computes CVE g's positive-rank metrics and moves the four dictionaries and `mrrs` from their state after g CVEs to their state after g + 1 |
| Evaluation.ComputeMetrics | PatchFinder/Phase-2/RQ2_Ablation/diff_only/evaluate_diff.py:109-161 | every list of `cve_data` ends up sorted in place, keys unchanged; the rank table is every CVE's rows in key order; the three results are the average recall@k, average MRR and average manual effort@k over the CVEs' positive ranks |
| Evaluation.Evaluate | PatchFinder/Phase-2/RQ2_Ablation/diff_only/evaluate_diff.py:163-195 | the results of `compute_metrics` on the grouping of every batch's candidates; the rank table has one row per scored candidate |
| Evaluation.RankTableCoversStream | PatchFinder/Phase-2/RQ2_Ablation/diff_only/evaluate_diff.py:122-123 | the rank table of the grouped stream has exactly one row per scored candidate |
| Scenarios.StableRanks | PatchFinder/Phase-2/RQ2_Ablation/diff_only/evaluate_diff.py:119-126 | scores 0.5, 0.5, 0.9 (labels 1, 0, 1) rank as 0.9, then the earlier 0.5, then the later one; positive ranks [1, 2] |
| Scenarios.RecallIsStrict | PatchFinder/Phase-2/RQ2_Ablation/diff_only/evaluate_diff.py:129-130 | a positive at rank 3 gives recall@3 = 0 and recall@4 = 1 |
| Scenarios.EffortFallback | PatchFinder/Phase-2/RQ2_Ablation/diff_only/evaluate_diff.py:132-135 | no positives gives k; a positive at rank 2 gives 2 at k = 5 and 2 (= k) at k = 2 |
| Scenarios.ReciprocalRankExample | PatchFinder/Phase-2/RQ2_Ablation/diff_only/evaluate_diff.py:146-147 | positives at ranks 1 and 4 contribute 0.625 |
| Scenarios.NoCves | PatchFinder/Phase-2/RQ2_Ablation/diff_only/evaluate_diff.py:149-151 | with no CVE, all three averages are 0, manual effort included |
| Scenarios.AverageRecallPair | PatchFinder/Phase-2/RQ2_Ablation/diff_only/evaluate_diff.py:149 | over two CVEs, average recall@k is the mean of their two recalls |
| Scenarios.TwoCves | PatchFinder/Phase-2/RQ2_Ablation/diff_only/evaluate_diff.py:149 | CVEs with positive ranks [1] and [] give average recall@1 = 0 and recall@2 = 0.5 |
| Scenarios.TwoCveKeys | PatchFinder/Phase-2/RQ2_Ablation/diff_only/evaluate_diff.py:185 | candidates of G1, G1, G2, G2 give keys [G1, G2] |
| Scenarios.TwoCveItems | PatchFinder/Phase-2/RQ2_Ablation/diff_only/evaluate_diff.py:185 | each CVE's list holds its candidates in arrival order |
| Scenarios.TwoCvesRanks | PatchFinder/Phase-2/RQ2_Ablation/diff_only/evaluate_diff.py:119-126 | G1 = [(0.9, 1), (0.1, 0)] and G2 = [(0.8, 0), (0.2, 0)] give positive ranks [1] and [] |

## Left out

- The classifier `CVEClassifier`, `evaluate_single_batch` and `load_checkpoint` (lines 16-107) are not part of this model. They wrap a pretrained transformer through torch. `Evaluate` takes the classifier's outputs as part of its input (`ScoredBatch.outputs`).
- File output is not modelled:
  - writing `predict.csv` (`save_outputs_to_csv`, line 186);
  - writing the rank table with pandas (lines 156-157);
  - the `.bak` renames (lines 153-154, 178-179);
  - `save_metrics_to_csv` (lines 198-207).

  `ComputeMetrics` and `Evaluate` return the rank table as a sequence instead.
- Logging, the tqdm progress bar and the `__main__` script (lines 190-193, 210-239) are not modelled. They only report results.
- Scores and averages are not IEEE floating point:
  - Scores are integers. The metrics use only their order, and ties are kept.
  - Recall, reciprocal ranks and averages are exact reals. Floating-point rounding is not modelled.
- Labels are not validated. Any label other than 1 is not relevant (line 126), and no record is rejected.
- Empty input: `avg_manual_efforts[k]` is 0, not `k`, because line 151 falls to `else 0` (`Scenarios.NoCves`).
- `os` is imported only inside the `__main__` block (line 211), yet `evaluate` and `compute_metrics` call `os.path.exists` (lines 178 and 153). Imported as a module, the file would raise NameError there. The model assumes the file runs as a script, and that file handling is left out anyway.
- The `rank_output_path` and `data_path` parameters are dropped, since they only name files.
- `manual_efforts_sum` and `manual_efforts_count` are never read after the loop. They are modelled and proved consistent with `manual_efforts`, but they feed no result.
- Evaluation.ComputeMetrics: the body of the loop over `cve_data.items()` is split into two methods. `SortTurn` covers lines 119-123. `MetricsTurn` covers lines 126-147 and calls `AppendCveMetrics` for lines 128-140. They run in the source's order.
- Ranking.SortDesc: `list.sort` is a library call. The model does not reproduce Timsort. It states the result as a stable insertion sort, and `StableSortIsUnique` shows that every stable descending sort gives that result.

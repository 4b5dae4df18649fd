/** `compute_metrics` and the part of `evaluate` that feeds it: every CVE's
    candidate list is sorted in place, its rows go to the rank table, and
    recall@k, manual effort@k and the mean reciprocal rank are collected
    per CVE and then averaged. */
module Evaluation {
  import opened Ranking
  import opened Metrics
  import opened Grouping

  /** `positive_ranks` of every CVE, in the dictionary's order, each taken
      on its list after the sort. */
  function GroupPositiveRanks(keys: seq<string>, lists: map<string, seq<Item>>): seq<seq<Rank>>
    requires forall c :: c in keys ==> c in lists
  {
    seq(|keys|, j requires 0 <= j < |keys| => PositiveRanks(SortDesc(lists[keys[j]])))
  }

  /** The `rank_data` table: the rows of every CVE's sorted list, CVE after
      CVE in the dictionary's order. */
  function RankTable(keys: seq<string>, lists: map<string, seq<Item>>): seq<RankRow>
    requires forall c :: c in keys ==> c in lists
  {
    if keys == [] then []
    else
      var c := keys[|keys| - 1];
      RankTable(keys[..|keys| - 1], lists) + RankRows(c, SortDesc(lists[c]))
  }

  /** The rank table holds one row per candidate stored under `keys`. */
  lemma {:induction false} RankTableSize(keys: seq<string>, lists: map<string, seq<Item>>)
    requires forall c :: c in keys ==> c in lists
    ensures |RankTable(keys, lists)| == TotalItems(keys, lists)
  {
    if keys != [] {
      RankTableSize(keys[..|keys| - 1], lists);
    }
  }

  /** The dictionary after the lists of the CVEs in `done` were sorted. */
  function SortedUpTo(lists: map<string, seq<Item>>, done: seq<string>): map<string, seq<Item>> {
    map c | c in lists :: if c in done then SortDesc(lists[c]) else lists[c]
  }

  /** The dictionary after every list was sorted. */
  function SortedGroups(lists: map<string, seq<Item>>): map<string, seq<Item>> {
    map c | c in lists :: SortDesc(lists[c])
  }

  // ---------------------------------------------------------------------
  // The threshold loop of one CVE
  // ---------------------------------------------------------------------

  /** recall@k of the CVE with positive ranks `pr`, as a function of `k`. */
  function RecallOf(pr: seq<Rank>): int -> real {
    k => Recall(pr, k)
  }

  /** min_rank_within_k of the CVE with positive ranks `pr`, as a function
      of `k`. */
  function EffortOf(pr: seq<Rank>): int -> int {
    k => MinRankWithinK(pr, k)
  }

  /** What `manual_efforts_count[k] += 1` adds. */
  function CountOne(k: int): int {
    1
  }

  /** For each `k` of `ks` in turn, `f(k)` appended to the list `m` keeps
      for `k`: what `recalls[k].append(...)` and
      `manual_efforts[k].append(...)` do over the threshold loop. */
  function AppendEach<T>(m: map<int, seq<T>>, ks: seq<int>, f: int -> T): map<int, seq<T>> {
    if ks == [] then m
    else
      var prev, k := AppendEach(m, ks[..|ks| - 1], f), ks[|ks| - 1];
      prev[k := (if k in prev then prev[k] else []) + [f(k)]]
  }

  /** `m[k] += v`, a missing entry counting as 0. */
  function Bump(m: map<int, int>, k: int, v: int): map<int, int> {
    m[k := (if k in m then m[k] else 0) + v]
  }

  /** For each `k` of `ks` in turn, `f(k)` added to the number `m` keeps for
      `k`: `manual_efforts_sum[k] += ...` and `manual_efforts_count[k] += 1`
      over the threshold loop. */
  function AddEach(m: map<int, int>, ks: seq<int>, f: int -> int): map<int, int> {
    if ks == [] then m
    else Bump(AddEach(m, ks[..|ks| - 1], f), ks[|ks| - 1], f(ks[|ks| - 1]))
  }

  /** Every threshold has an entry in each of the four dictionaries, as the
      dictionary comprehensions over `k_values` make sure. */
  predicate HasThresholds(kValues: seq<int>, recalls: map<int, seq<real>>, manualEfforts: map<int, seq<int>>,
                          manualEffortsSum: map<int, int>, manualEffortsCount: map<int, int>)
  {
    forall j :: 0 <= j < |kValues| ==>
      kValues[j] in recalls && kValues[j] in manualEfforts && kValues[j] in manualEffortsSum && kValues[j] in manualEffortsCount
  }

  lemma PrefixSnoc<T>(xs: seq<T>, g: nat)
    requires 0 < g <= |xs|
    ensures xs[..g] == xs[..g - 1] + [xs[g - 1]]
  {
  }

  lemma PrefixAll<T>(xs: seq<T>)
    ensures xs[..|xs|] == xs
  {
  }

  lemma SumIntSnoc(xs: seq<int>, x: int)
    ensures SumInt(xs + [x]) == SumInt(xs) + x
  {
    assert (xs + [x])[..|xs|] == xs;
  }

  lemma SpreadSnoc<T>(xs: seq<T>, x: T, m: nat)
    ensures Spread(xs + [x], m) == Spread(xs, m) + Repeat(x, m)
  {
    assert (xs + [x])[..|xs|] == xs;
  }

  lemma AppendEachSnoc<T>(m: map<int, seq<T>>, ks: seq<int>, t: nat, f: int -> T)
    requires t < |ks|
    ensures AppendEach(m, ks[..t + 1], f) == AppendEach(m, ks[..t], f)[ks[t] :=
      (if ks[t] in AppendEach(m, ks[..t], f) then AppendEach(m, ks[..t], f)[ks[t]] else []) + [f(ks[t])]]
  {
    assert ks[..t + 1][..t] == ks[..t];
  }

  lemma AddEachSnoc(m: map<int, int>, ks: seq<int>, t: nat, f: int -> int)
    requires t < |ks|
    ensures AddEach(m, ks[..t + 1], f) == Bump(AddEach(m, ks[..t], f), ks[t], f(ks[t]))
  {
    assert ks[..t + 1][..t] == ks[..t];
  }

  /** The list of every key grows by `f(k)` once per occurrence of `k` in
      `ks`, and no key is added or lost when every `k` already has a list. */
  lemma {:induction false} AppendEachAt<T>(m: map<int, seq<T>>, ks: seq<int>, f: int -> T, k: int)
    requires forall j :: 0 <= j < |ks| ==> ks[j] in m
    ensures AppendEach(m, ks, f).Keys == m.Keys
    ensures k in m ==> AppendEach(m, ks, f)[k] == m[k] + Repeat(f(k), multiset(ks)[k])
  {
    if ks != [] {
      var init, last := ks[..|ks| - 1], ks[|ks| - 1];
      AppendEachAt(m, init, f, k);
      AppendEachAt(m, init, f, last);
      assert multiset(ks) == multiset(init) + multiset{last} by {
        assert ks == init + [last];
      }
      if k in m && k == last {
        ConcatAssoc(m[k], Repeat(f(k), multiset(init)[k]), [f(k)]);
      }
    }
  }

  lemma {:induction false} AddEachKeys(m: map<int, int>, ks: seq<int>, f: int -> int)
    requires forall j :: 0 <= j < |ks| ==> ks[j] in m
    ensures AddEach(m, ks, f).Keys == m.Keys
  {
    if ks != [] {
      AddEachKeys(m, ks[..|ks| - 1], f);
    }
  }

  /** Running sums and counts built alongside the lists of manual efforts
      keep agreeing with them. */
  lemma {:induction false} AddEachTracks(efforts: map<int, seq<int>>, sums: map<int, int>, counts: map<int, int>,
                                         ks: seq<int>, f: int -> int, k: int)
    requires forall j :: 0 <= j < |ks| ==> ks[j] in efforts && ks[j] in sums && ks[j] in counts
    requires forall j :: 0 <= j < |ks| ==>
      sums[ks[j]] == SumInt(efforts[ks[j]]) && counts[ks[j]] == |efforts[ks[j]]|
    requires k in efforts && k in sums && k in counts
    requires sums[k] == SumInt(efforts[k]) && counts[k] == |efforts[k]|
    ensures k in AppendEach(efforts, ks, f) && k in AddEach(sums, ks, f) && k in AddEach(counts, ks, CountOne)
    ensures AddEach(sums, ks, f)[k] == SumInt(AppendEach(efforts, ks, f)[k])
    ensures AddEach(counts, ks, CountOne)[k] == |AppendEach(efforts, ks, f)[k]|
  {
    if ks != [] {
      var init, last := ks[..|ks| - 1], ks[|ks| - 1];
      AddEachTracks(efforts, sums, counts, init, f, k);
      AddEachTracks(efforts, sums, counts, init, f, last);
      SumIntSnoc(AppendEach(efforts, init, f)[last], f(last));
    }
  }

  /** One turn of the threshold loop, on the four dictionaries as the turns
      before it left them. */
  lemma TurnStep(kValues: seq<int>, t: nat, pr: seq<Rank>,
                 recalls: map<int, seq<real>>, manualEfforts: map<int, seq<int>>,
                 manualEffortsSum: map<int, int>, manualEffortsCount: map<int, int>)
    requires t < |kValues|
    requires HasThresholds(kValues, recalls, manualEfforts, manualEffortsSum, manualEffortsCount)
    ensures var k, r := kValues[t], AppendEach(recalls, kValues[..t], RecallOf(pr));
      k in r && AppendEach(recalls, kValues[..t + 1], RecallOf(pr)) == r[k := r[k] + [Recall(pr, k)]]
    ensures var k, e := kValues[t], AppendEach(manualEfforts, kValues[..t], EffortOf(pr));
      k in e && AppendEach(manualEfforts, kValues[..t + 1], EffortOf(pr)) == e[k := e[k] + [MinRankWithinK(pr, k)]]
    ensures var k := kValues[t];
      AddEach(manualEffortsSum, kValues[..t + 1], EffortOf(pr))
        == Bump(AddEach(manualEffortsSum, kValues[..t], EffortOf(pr)), k, MinRankWithinK(pr, k))
    ensures var k := kValues[t];
      AddEach(manualEffortsCount, kValues[..t + 1], CountOne) == Bump(AddEach(manualEffortsCount, kValues[..t], CountOne), k, 1)
  {
    var k := kValues[t];
    AppendEachAt(recalls, kValues[..t], RecallOf(pr), k);
    AppendEachAt(manualEfforts, kValues[..t], EffortOf(pr), k);
    AppendEachSnoc(recalls, kValues, t, RecallOf(pr));
    AppendEachSnoc(manualEfforts, kValues, t, EffortOf(pr));
    AddEachSnoc(manualEffortsSum, kValues, t, EffortOf(pr));
    AddEachSnoc(manualEffortsCount, kValues, t, CountOne);
  }

  /** The `for k in k_values` loop for one CVE whose positive ranks are `pr`:
      for each `k` of `kValues` in turn, recall@k and manual effort@k are
      appended to the lists kept for `k`, and the running sum and count of
      manual efforts for `k` are increased. */
  method AppendCveMetrics(kValues: seq<int>, pr: seq<Rank>,
                          recalls: map<int, seq<real>>, manualEfforts: map<int, seq<int>>,
                          manualEffortsSum: map<int, int>, manualEffortsCount: map<int, int>)
    returns (recalls': map<int, seq<real>>, manualEfforts': map<int, seq<int>>,
             manualEffortsSum': map<int, int>, manualEffortsCount': map<int, int>)
    requires HasThresholds(kValues, recalls, manualEfforts, manualEffortsSum, manualEffortsCount)
    ensures recalls' == AppendEach(recalls, kValues, RecallOf(pr))
    ensures manualEfforts' == AppendEach(manualEfforts, kValues, EffortOf(pr))
    ensures manualEffortsSum' == AddEach(manualEffortsSum, kValues, EffortOf(pr))
    ensures manualEffortsCount' == AddEach(manualEffortsCount, kValues, CountOne)
  {
    recalls', manualEfforts', manualEffortsSum', manualEffortsCount' :=
      recalls, manualEfforts, manualEffortsSum, manualEffortsCount;
    for t := 0 to |kValues|
      invariant recalls' == AppendEach(recalls, kValues[..t], RecallOf(pr))
      invariant manualEfforts' == AppendEach(manualEfforts, kValues[..t], EffortOf(pr))
      invariant manualEffortsSum' == AddEach(manualEffortsSum, kValues[..t], EffortOf(pr))
      invariant manualEffortsCount' == AddEach(manualEffortsCount, kValues[..t], CountOne)
    {
      var k := kValues[t];
      var recall := Recall(pr, k);
      var minRankWithinK := MinRankWithinK(pr, k);
      TurnStep(kValues, t, pr, recalls, manualEfforts, manualEffortsSum, manualEffortsCount);
      recalls' := recalls'[k := recalls'[k] + [recall]];
      manualEfforts' := manualEfforts'[k := manualEfforts'[k] + [minRankWithinK]];
      manualEffortsSum' := Bump(manualEffortsSum', k, minRankWithinK);
      manualEffortsCount' := Bump(manualEffortsCount', k, 1);
    }
    assert kValues[..|kValues|] == kValues;
  }

  // ---------------------------------------------------------------------
  // The per-threshold dictionaries after the first `g` CVEs
  // ---------------------------------------------------------------------

  /** `recalls` once the first `g` CVEs were processed. */
  function RecallLists(kValues: seq<int>, prs: seq<seq<Rank>>, g: nat): map<int, seq<real>>
    requires g <= |prs|
  {
    if g == 0 then map k | k in kValues :: []
    else AppendEach(RecallLists(kValues, prs, g - 1), kValues, RecallOf(prs[g - 1]))
  }

  /** `manual_efforts` once the first `g` CVEs were processed. */
  function EffortLists(kValues: seq<int>, prs: seq<seq<Rank>>, g: nat): map<int, seq<int>>
    requires g <= |prs|
  {
    if g == 0 then map k | k in kValues :: []
    else AppendEach(EffortLists(kValues, prs, g - 1), kValues, EffortOf(prs[g - 1]))
  }

  /** `manual_efforts_sum` once the first `g` CVEs were processed. */
  function EffortSums(kValues: seq<int>, prs: seq<seq<Rank>>, g: nat): map<int, int>
    requires g <= |prs|
  {
    if g == 0 then map k | k in kValues :: 0
    else AddEach(EffortSums(kValues, prs, g - 1), kValues, EffortOf(prs[g - 1]))
  }

  /** `manual_efforts_count` once the first `g` CVEs were processed. */
  function EffortCounts(kValues: seq<int>, prs: seq<seq<Rank>>, g: nat): map<int, int>
    requires g <= |prs|
  {
    if g == 0 then map k | k in kValues :: 0
    else AddEach(EffortCounts(kValues, prs, g - 1), kValues, CountOne)
  }

  /** The four dictionaries keep one entry per threshold throughout. */
  lemma {:induction false} ListsKeys(kValues: seq<int>, prs: seq<seq<Rank>>, g: nat)
    requires g <= |prs|
    ensures HasThresholds(kValues, RecallLists(kValues, prs, g), EffortLists(kValues, prs, g),
                          EffortSums(kValues, prs, g), EffortCounts(kValues, prs, g))
  {
    if g == 0 {
      forall j | 0 <= j < |kValues| ensures kValues[j] in kValues {
      }
    } else {
      ListsKeys(kValues, prs, g - 1);
      AppendEachAt(RecallLists(kValues, prs, g - 1), kValues, RecallOf(prs[g - 1]), 0);
      AppendEachAt(EffortLists(kValues, prs, g - 1), kValues, EffortOf(prs[g - 1]), 0);
      AddEachKeys(EffortSums(kValues, prs, g - 1), kValues, EffortOf(prs[g - 1]));
      AddEachKeys(EffortCounts(kValues, prs, g - 1), kValues, CountOne);
    }
  }

  /** One more CVE: the list of threshold `k` grows by that CVE's value,
      once per occurrence of `k` in `kValues`. */
  lemma SpreadStep<T>(prev: map<int, seq<T>>, kValues: seq<int>, f: int -> T, k: int, xs: seq<T>, g: nat)
    requires forall j :: 0 <= j < |kValues| ==> kValues[j] in prev
    requires 0 < g <= |xs| && xs[g - 1] == f(k)
    requires k in prev && prev[k] == Spread(xs[..g - 1], multiset(kValues)[k])
    ensures k in AppendEach(prev, kValues, f)
    ensures AppendEach(prev, kValues, f)[k] == Spread(xs[..g], multiset(kValues)[k])
  {
    AppendEachAt(prev, kValues, f, k);
    PrefixSnoc(xs, g);
    SpreadSnoc(xs[..g - 1], xs[g - 1], multiset(kValues)[k]);
  }

  /** After `g` CVEs, the recall list of a threshold `k` holds recall@k of
      each of those CVEs in order, each repeated once per occurrence of `k`
      in `kValues`. */
  lemma {:induction false} RecallListsSpread(kValues: seq<int>, prs: seq<seq<Rank>>, g: nat, k: int)
    requires g <= |prs| && k in kValues
    ensures k in RecallLists(kValues, prs, g)
    ensures RecallLists(kValues, prs, g)[k] == Spread(RecallsAt(prs, k)[..g], multiset(kValues)[k])
  {
    if g == 0 {
      assert RecallsAt(prs, k)[..0] == [];
    } else {
      RecallListsSpread(kValues, prs, g - 1, k);
      ListsKeys(kValues, prs, g - 1);
      SpreadStep(RecallLists(kValues, prs, g - 1), kValues, RecallOf(prs[g - 1]), k, RecallsAt(prs, k), g);
    }
  }

  /** The same for the manual efforts. */
  lemma {:induction false} EffortListsSpread(kValues: seq<int>, prs: seq<seq<Rank>>, g: nat, k: int)
    requires g <= |prs| && k in kValues
    ensures k in EffortLists(kValues, prs, g)
    ensures EffortLists(kValues, prs, g)[k] == Spread(EffortsAt(prs, k)[..g], multiset(kValues)[k])
  {
    if g == 0 {
      assert EffortsAt(prs, k)[..0] == [];
    } else {
      EffortListsSpread(kValues, prs, g - 1, k);
      ListsKeys(kValues, prs, g - 1);
      SpreadStep(EffortLists(kValues, prs, g - 1), kValues, EffortOf(prs[g - 1]), k, EffortsAt(prs, k), g);
    }
  }

  /** For every threshold, the running sum and count agree with the list of
      manual efforts. */
  predicate SumsTrack(kValues: seq<int>, efforts: map<int, seq<int>>, sums: map<int, int>, counts: map<int, int>) {
    forall j :: 0 <= j < |kValues| ==>
      && kValues[j] in efforts && kValues[j] in sums && kValues[j] in counts
      && sums[kValues[j]] == SumInt(efforts[kValues[j]]) && counts[kValues[j]] == |efforts[kValues[j]]|
  }

  /** One CVE's threshold loop keeps the running sums and counts in step
      with the lists. */
  lemma SumsTrackTurn(kValues: seq<int>, efforts: map<int, seq<int>>, sums: map<int, int>, counts: map<int, int>,
                      f: int -> int)
    requires SumsTrack(kValues, efforts, sums, counts)
    ensures SumsTrack(kValues, AppendEach(efforts, kValues, f), AddEach(sums, kValues, f), AddEach(counts, kValues, CountOne))
  {
    forall j | 0 <= j < |kValues|
      ensures var k := kValues[j];
        && k in AppendEach(efforts, kValues, f) && k in AddEach(sums, kValues, f) && k in AddEach(counts, kValues, CountOne)
        && AddEach(sums, kValues, f)[k] == SumInt(AppendEach(efforts, kValues, f)[k])
        && AddEach(counts, kValues, CountOne)[k] == |AppendEach(efforts, kValues, f)[k]|
    {
      AddEachTracks(efforts, sums, counts, kValues, f, kValues[j]);
    }
  }

  /** `manual_efforts_sum[k]` and `manual_efforts_count[k]` are always the
      sum and the length of `manual_efforts[k]`. */
  lemma {:induction false} EffortSumsTrack(kValues: seq<int>, prs: seq<seq<Rank>>, g: nat)
    requires g <= |prs|
    ensures SumsTrack(kValues, EffortLists(kValues, prs, g), EffortSums(kValues, prs, g), EffortCounts(kValues, prs, g))
  {
    if g == 0 {
      assert forall j :: 0 <= j < |kValues| ==> kValues[j] in kValues;
    } else {
      EffortSumsTrack(kValues, prs, g - 1);
      EffortSumsStep(kValues, prs, g);
    }
  }

  /** After `g` CVEs, `manual_efforts_count[k]` is the number of CVEs times
      the number of times `k` is listed, and `manual_efforts_sum[k]` is that
      many times the sum of the CVEs' min_rank_within_k. */
  lemma EffortTotals(kValues: seq<int>, prs: seq<seq<Rank>>, g: nat, k: int)
    requires g <= |prs| && k in kValues
    ensures k in EffortCounts(kValues, prs, g) && k in EffortSums(kValues, prs, g)
    ensures EffortCounts(kValues, prs, g)[k] == multiset(kValues)[k] * g
    ensures EffortSums(kValues, prs, g)[k] == multiset(kValues)[k] * SumInt(EffortsAt(prs, k)[..g])
  {
    var m := multiset(kValues)[k];
    EffortSumsTrack(kValues, prs, g);
    EffortListsSpread(kValues, prs, g, k);
    SpreadLength(EffortsAt(prs, k)[..g], m);
    SpreadSumInt(EffortsAt(prs, k)[..g], m);
    var j :| 0 <= j < |kValues| && kValues[j] == k;
  }

  lemma EffortSumsStep(kValues: seq<int>, prs: seq<seq<Rank>>, g: nat)
    requires 0 < g <= |prs|
    requires SumsTrack(kValues, EffortLists(kValues, prs, g - 1), EffortSums(kValues, prs, g - 1), EffortCounts(kValues, prs, g - 1))
    ensures SumsTrack(kValues, EffortLists(kValues, prs, g), EffortSums(kValues, prs, g), EffortCounts(kValues, prs, g))
  {
    SumsTrackTurn(kValues, EffortLists(kValues, prs, g - 1), EffortSums(kValues, prs, g - 1),
                  EffortCounts(kValues, prs, g - 1), EffortOf(prs[g - 1]));
  }

  /** Once every CVE was processed, averaging the recall list of a
      threshold `k` gives the average recall@k over the CVEs, even when `k`
      is listed several times in `kValues`. */
  lemma RecallAverageAt(kValues: seq<int>, prs: seq<seq<Rank>>, k: int)
    requires k in kValues
    ensures k in RecallLists(kValues, prs, |prs|)
    ensures Mean(RecallLists(kValues, prs, |prs|)[k]) == AverageRecall(prs, k)
  {
    RecallListsSpread(kValues, prs, |prs|, k);
    PrefixAll(RecallsAt(prs, k));
    SpreadMean(RecallsAt(prs, k), multiset(kValues)[k]);
  }

  /** The same for the manual efforts. */
  lemma EffortAverageAt(kValues: seq<int>, prs: seq<seq<Rank>>, k: int)
    requires k in kValues
    ensures k in EffortLists(kValues, prs, |prs|)
    ensures MeanInt(EffortLists(kValues, prs, |prs|)[k]) == AverageManualEffort(prs, k)
  {
    EffortListsSpread(kValues, prs, |prs|, k);
    PrefixAll(EffortsAt(prs, k));
    SpreadMeanInt(EffortsAt(prs, k), multiset(kValues)[k]);
  }

  /** `avg_recalls` is the average recall over the CVEs, threshold by
      threshold. */
  lemma RecallAverages(kValues: seq<int>, prs: seq<seq<Rank>>, recalls: map<int, seq<real>>)
    requires recalls == RecallLists(kValues, prs, |prs|)
    ensures forall k :: k in kValues ==> k in recalls
    ensures (map k | k in kValues :: Mean(recalls[k])) == (map k | k in kValues :: AverageRecall(prs, k))
  {
    forall k | k in kValues ensures k in recalls && Mean(recalls[k]) == AverageRecall(prs, k) {
      RecallAverageAt(kValues, prs, k);
    }
  }

  /** `avg_manual_efforts` is the average manual effort over the CVEs,
      threshold by threshold. */
  lemma EffortAverages(kValues: seq<int>, prs: seq<seq<Rank>>, manualEfforts: map<int, seq<int>>)
    requires manualEfforts == EffortLists(kValues, prs, |prs|)
    ensures forall k :: k in kValues ==> k in manualEfforts
    ensures (map k | k in kValues :: MeanInt(manualEfforts[k])) == (map k | k in kValues :: AverageManualEffort(prs, k))
  {
    forall k | k in kValues ensures k in manualEfforts && MeanInt(manualEfforts[k]) == AverageManualEffort(prs, k) {
      EffortAverageAt(kValues, prs, k);
    }
  }

  // ---------------------------------------------------------------------
  // compute_metrics
  // ---------------------------------------------------------------------

  lemma SortedUpToStep(lists: map<string, seq<Item>>, keys: seq<string>, g: nat)
    requires g < |keys| && keys[g] in lists
    requires forall i, j :: 0 <= i < j < |keys| ==> keys[i] != keys[j]
    ensures keys[g] !in keys[..g]
    ensures SortedUpTo(lists, keys[..g + 1]) == SortedUpTo(lists, keys[..g])[keys[g] := SortDesc(lists[keys[g]])]
  {
    assert keys[..g + 1] == keys[..g] + [keys[g]];
  }

  lemma SortedUpToAll(lists: map<string, seq<Item>>, keys: seq<string>)
    requires forall c :: c in lists ==> c in keys
    ensures SortedUpTo(lists, keys) == SortedGroups(lists)
  {
  }

  lemma RankTableStep(keys: seq<string>, lists: map<string, seq<Item>>, g: nat)
    requires g < |keys| && forall c :: c in keys ==> c in lists
    ensures RankTable(keys[..g + 1], lists) == RankTable(keys[..g], lists) + RankRows(keys[g], SortDesc(lists[keys[g]]))
  {
    assert keys[..g + 1][..g] == keys[..g];
  }

  /** The rows of one CVE are appended to the rank table, rank 1 first. */
  method AppendRankRows(rankData: seq<RankRow>, cve: string, data: seq<Item>) returns (rows: seq<RankRow>)
    ensures rows == rankData + RankRows(cve, data)
  {
    rows := rankData;
    for i := 0 to |data|
      invariant rows == rankData + RankRows(cve, data)[..i]
    {
      rows := rows + [RankRow(cve, i + 1, data[i].groundTruth)];
    }
    assert RankRows(cve, data)[..|data|] == RankRows(cve, data);
  }

  /** The first half of one turn of the CVE loop: `data.sort(...)` on the
      list of the `g`-th CVE, in place, and its rows appended to
      `rank_data`. */
  method SortTurn(cveData: CveData, ghost keys: seq<string>, ghost lists0: map<string, seq<Item>>, g: nat,
                  rankData: seq<RankRow>) returns (data: seq<Item>, rankData': seq<RankRow>)
    requires cveData.Valid() && cveData.keys == keys && g < |keys|
    requires forall c :: c in lists0 <==> c in keys
    requires cveData.lists == SortedUpTo(lists0, keys[..g])
    requires rankData == RankTable(keys[..g], lists0)
    modifies cveData
    ensures cveData.Valid() && cveData.keys == keys
    ensures cveData.lists == SortedUpTo(lists0, keys[..g + 1])
    ensures data == SortDesc(lists0[keys[g]])
    ensures rankData' == RankTable(keys[..g + 1], lists0)
  {
    var cve := cveData.keys[g];
    SortedUpToStep(lists0, keys, g);
    cveData.SortGroup(cve);
    data := cveData.lists[cve];
    RankTableStep(keys, lists0, g);
    rankData' := AppendRankRows(rankData, cve, data);
  }

  lemma ListsStep(kValues: seq<int>, prs: seq<seq<Rank>>, g: nat)
    requires g < |prs|
    ensures RecallLists(kValues, prs, g + 1) == AppendEach(RecallLists(kValues, prs, g), kValues, RecallOf(prs[g]))
    ensures EffortLists(kValues, prs, g + 1) == AppendEach(EffortLists(kValues, prs, g), kValues, EffortOf(prs[g]))
    ensures EffortSums(kValues, prs, g + 1) == AddEach(EffortSums(kValues, prs, g), kValues, EffortOf(prs[g]))
    ensures EffortCounts(kValues, prs, g + 1) == AddEach(EffortCounts(kValues, prs, g), kValues, CountOne)
  {
  }

  /** The second half of one turn of the CVE loop: the threshold loop for
      the `g`-th CVE, whose positive ranks are `positiveRanks`, and its
      mean reciprocal rank appended to `mrrs`. */
  method MetricsTurn(kValues: seq<int>, ghost prs: seq<seq<Rank>>, g: nat, positiveRanks: seq<Rank>,
                     recalls: map<int, seq<real>>, mrrs: seq<real>, manualEfforts: map<int, seq<int>>,
                     manualEffortsSum: map<int, int>, manualEffortsCount: map<int, int>)
    returns (recalls': map<int, seq<real>>, mrrs': seq<real>, manualEfforts': map<int, seq<int>>,
             manualEffortsSum': map<int, int>, manualEffortsCount': map<int, int>)
    requires g < |prs| && positiveRanks == prs[g]
    requires recalls == RecallLists(kValues, prs, g) && manualEfforts == EffortLists(kValues, prs, g)
    requires manualEffortsSum == EffortSums(kValues, prs, g) && manualEffortsCount == EffortCounts(kValues, prs, g)
    requires mrrs == ReciprocalRankMeans(prs)[..g]
    ensures recalls' == RecallLists(kValues, prs, g + 1) && manualEfforts' == EffortLists(kValues, prs, g + 1)
    ensures manualEffortsSum' == EffortSums(kValues, prs, g + 1) && manualEffortsCount' == EffortCounts(kValues, prs, g + 1)
    ensures mrrs' == ReciprocalRankMeans(prs)[..g + 1]
  {
    ListsKeys(kValues, prs, g);
    ListsStep(kValues, prs, g);
    recalls', manualEfforts', manualEffortsSum', manualEffortsCount' :=
      AppendCveMetrics(kValues, positiveRanks, recalls, manualEfforts, manualEffortsSum, manualEffortsCount);
    mrrs' := mrrs + [ReciprocalRankMean(positiveRanks)];
    PrefixSnoc(ReciprocalRankMeans(prs), g + 1);
  }

  /** `compute_metrics(cve_data, k_values, ...)`: sorts every CVE's list in
      place, returns the rank table (what is written to the rank file) and
      the averages of recall@k, MRR and manual effort@k over the CVEs. */
  method ComputeMetrics(cveData: CveData, kValues: seq<int>)
    returns (avgRecalls: map<int, real>, avgMrr: real, avgManualEfforts: map<int, real>, rankData: seq<RankRow>)
    requires cveData.Valid()
    modifies cveData
    ensures cveData.Valid() && cveData.keys == old(cveData.keys)
    ensures cveData.lists == SortedGroups(old(cveData.lists))
    ensures rankData == RankTable(old(cveData.keys), old(cveData.lists))
    ensures avgRecalls == map k | k in kValues :: AverageRecall(GroupPositiveRanks(old(cveData.keys), old(cveData.lists)), k)
    ensures avgMrr == AverageMrr(GroupPositiveRanks(old(cveData.keys), old(cveData.lists)))
    ensures avgManualEfforts == map k | k in kValues :: AverageManualEffort(GroupPositiveRanks(old(cveData.keys), old(cveData.lists)), k)
  {
    var recalls: map<int, seq<real>> := map k | k in kValues :: [];
    var mrrs: seq<real> := [];
    var manualEfforts: map<int, seq<int>> := map k | k in kValues :: [];
    var manualEffortsSum: map<int, int> := map k | k in kValues :: 0;
    var manualEffortsCount: map<int, int> := map k | k in kValues :: 0;
    rankData := [];

    ghost var keys, lists0 := cveData.keys, cveData.lists;
    ghost var prs := GroupPositiveRanks(keys, lists0);
    assert SortedUpTo(lists0, keys[..0]) == lists0;

    for g := 0 to |cveData.keys|
      invariant cveData.Valid() && cveData.keys == keys
      invariant cveData.lists == SortedUpTo(lists0, keys[..g])
      invariant rankData == RankTable(keys[..g], lists0)
      invariant recalls == RecallLists(kValues, prs, g) && manualEfforts == EffortLists(kValues, prs, g)
      invariant manualEffortsSum == EffortSums(kValues, prs, g) && manualEffortsCount == EffortCounts(kValues, prs, g)
      invariant mrrs == ReciprocalRankMeans(prs)[..g]
    {
      var data;
      data, rankData := SortTurn(cveData, keys, lists0, g, rankData);
      var positiveRanks := PositiveRanks(data);
      recalls, mrrs, manualEfforts, manualEffortsSum, manualEffortsCount :=
        MetricsTurn(kValues, prs, g, positiveRanks, recalls, mrrs, manualEfforts, manualEffortsSum, manualEffortsCount);
    }
    PrefixAll(keys);
    PrefixAll(ReciprocalRankMeans(prs));
    RecallAverages(kValues, prs, recalls);
    EffortAverages(kValues, prs, manualEfforts);

    avgRecalls := map k | k in kValues :: Mean(recalls[k]);
    avgMrr := Mean(mrrs);
    avgManualEfforts := map k | k in kValues :: MeanInt(manualEfforts[k]);
    SortedUpToAll(lists0, keys);
  }

  // ---------------------------------------------------------------------
  // evaluate
  // ---------------------------------------------------------------------

  /** Positive ranks of every CVE of a scored stream, in first-seen order. */
  function StreamRanks(stream: seq<Scored>): seq<seq<Rank>> {
    GroupPositiveRanks(KeysOf(stream), Grouped(stream))
  }

  /** `evaluate`: group the scored candidates of every batch by CVE, then
      compute the metrics. The classifier's outputs are part of the input. */
  method Evaluate(batches: seq<ScoredBatch>, kValues: seq<int>)
    returns (avgRecalls: map<int, real>, avgMrr: real, avgManualEfforts: map<int, real>, rankData: seq<RankRow>)
    ensures avgRecalls == map k | k in kValues :: AverageRecall(StreamRanks(Stream(batches)), k)
    ensures avgMrr == AverageMrr(StreamRanks(Stream(batches)))
    ensures avgManualEfforts == map k | k in kValues :: AverageManualEffort(StreamRanks(Stream(batches)), k)
    ensures rankData == RankTable(KeysOf(Stream(batches)), Grouped(Stream(batches)))
    ensures |rankData| == |Stream(batches)|
  {
    var cveData := GroupBatches(batches);
    avgRecalls, avgMrr, avgManualEfforts, rankData := ComputeMetrics(cveData, kValues);
    RankTableCoversStream(Stream(batches));
  }

  /** Every scored candidate of the stream gets exactly one row of the rank
      table. */
  lemma RankTableCoversStream(stream: seq<Scored>)
    ensures |RankTable(KeysOf(stream), Grouped(stream))| == |stream|
  {
    RankTableSize(KeysOf(stream), Grouped(stream));
    GroupedTotal(stream);
  }
}

/** The per-CVE retrieval metrics of `compute_metrics` (recall@k,
    manual effort@k, reciprocal rank) and their unweighted means over all
    CVEs. Every quantity is an exact real. */
module Metrics {
  import opened Ranking

  lemma MulPos(x: real, y: real)
    requires 0.0 < x && 0.0 < y
    ensures 0.0 < x * y
  {
  }

  /** Dividing by a positive `n` keeps a sum that lies between `n * lo` and
      `n * hi` between `lo` and `hi`. */
  lemma DivBetween(s: real, n: real, lo: real, hi: real)
    requires 0.0 < n && n * lo <= s <= n * hi
    ensures lo <= s / n <= hi
  {
    var q := s / n;
    assert q * n == s;
    if q < lo {
      MulPos(lo - q, n);
    }
    if q > hi {
      MulPos(q - hi, n);
    }
  }

  lemma DivMonotone(a: real, b: real, d: real)
    requires 0.0 < d && a <= b
    ensures a / d <= b / d
  {
    var q1, q2 := a / d, b / d;
    assert q1 * d == a && q2 * d == b;
    if q1 > q2 {
      MulPos(q1 - q2, d);
    }
  }

  lemma MulZero(m: real)
    ensures m * 0.0 == 0.0
  {
  }

  lemma MulStep(n: int, x: int, prev: int)
    requires prev == (n - 1) * x
    ensures prev + x == n * x
  {
  }

  lemma Distrib(m: real, a: real, b: real)
    ensures m * (a + b) == m * a + m * b
  {
  }

  lemma DistribInt(m: int, a: int, b: int)
    ensures m * (a + b) == m * a + m * b
  {
  }

  lemma {:induction false} CastMul(a: nat, b: nat)
    ensures (a * b) as real == a as real * b as real
  {
    if a > 0 {
      CastMul(a - 1, b);
      DistribInt(b, a - 1, 1);
      Distrib(b as real, (a - 1) as real, 1.0);
    }
  }

  lemma CastMulInt(a: nat, b: int)
    ensures (a * b) as real == a as real * b as real
  {
    if b >= 0 {
      CastMul(a, b);
    } else {
      CastMul(a, -b);
    }
  }

  lemma DivCancel(m: real, s: real, n: real)
    requires 0.0 < m && 0.0 < n
    ensures (m * s) / (m * n) == s / n
  {
    var q := s / n;
    assert q * n == s;
    MulPos(m, n);
    assert q * (m * n) == m * (q * n);
  }

  /** `[rank for rank in positive_ranks if rank < k]`. */
  function Below(pr: seq<Rank>, k: int): (r: seq<Rank>)
    ensures |r| <= |pr|
    ensures forall x :: x in r <==> x in pr && x < k
    ensures |r| == |pr| <==> forall i :: 0 <= i < |pr| ==> pr[i] < k
  {
    if pr == [] then []
    else
      var init := pr[..|pr| - 1];
      assert forall i :: 0 <= i < |init| ==> init[i] == pr[i];
      assert pr == init + [pr[|pr| - 1]];
      Below(init, k) + (if pr[|pr| - 1] < k then [pr[|pr| - 1]] else [])
  }

  /** `top_k_counts`: how many relevant candidates are ranked strictly
      above `k`. */
  function TopKCount(pr: seq<Rank>, k: int): (n: nat)
    ensures n <= |pr|
    ensures n == |pr| <==> forall i :: 0 <= i < |pr| ==> pr[i] < k
    ensures n == 0 <==> forall i :: 0 <= i < |pr| ==> k <= pr[i]
  {
    var within := Below(pr, k);
    assert within != [] ==> within[0] in within;
    assert forall i :: 0 <= i < |pr| && pr[i] < k ==> pr[i] in within;
    |within|
  }

  /** recall@k of one CVE: the share of its relevant candidates ranked
      strictly above `k`, or 0 when it has none. */
  function Recall(pr: seq<Rank>, k: int): (r: real)
    ensures 0.0 <= r <= 1.0
    ensures r == 0.0 <==> forall i :: 0 <= i < |pr| ==> k <= pr[i]
    ensures r == 1.0 <==> |pr| > 0 && forall i :: 0 <= i < |pr| ==> pr[i] < k
  {
    if |pr| > 0 then
      var n, d := TopKCount(pr, k) as real, |pr| as real;
      DivBetween(n, d, 0.0, 1.0);
      assert n / d * d == n;
      n / d
    else 0.0
  }

  lemma {:induction false} BelowMonotone(pr: seq<Rank>, k1: int, k2: int)
    requires k1 <= k2
    ensures |Below(pr, k1)| <= |Below(pr, k2)|
  {
    if pr != [] {
      BelowMonotone(pr[..|pr| - 1], k1, k2);
    }
  }

  /** Raising `k` never lowers a CVE's recall. */
  lemma RecallMonotone(pr: seq<Rank>, k1: int, k2: int)
    requires k1 <= k2
    ensures Recall(pr, k1) <= Recall(pr, k2)
  {
    if |pr| > 0 {
      BelowMonotone(pr, k1, k2);
      var n1, n2, d := TopKCount(pr, k1) as real, TopKCount(pr, k2) as real, |pr| as real;
      DivMonotone(n1, n2, d);
    }
  }

  /** The smallest element of a non-empty list of ranks. */
  function MinOf(s: seq<Rank>): (m: Rank)
    requires |s| > 0
    ensures m in s
    ensures forall i :: 0 <= i < |s| ==> m <= s[i]
  {
    if |s| == 1 then s[0]
    else
      var m' := MinOf(s[..|s| - 1]);
      if s[|s| - 1] < m' then s[|s| - 1] else m'
  }

  /** `min_rank_within_k`: the best rank of a relevant candidate when one is
      ranked strictly above `k`, otherwise `k` itself (also when the CVE has
      no relevant candidate at all). */
  function MinRankWithinK(pr: seq<Rank>, k: int): (r: int)
    ensures r == k <==> forall i :: 0 <= i < |pr| ==> k <= pr[i]
    ensures r != k ==> r in pr && forall i :: 0 <= i < |pr| ==> r <= pr[i]
    ensures 1 <= k ==> 1 <= r <= k
  {
    if |pr| > 0 then
      var within := Below(pr, k);
      assert forall i :: 0 <= i < |pr| && pr[i] < k ==> pr[i] in within;
      if |within| > 0 then
        assert within[0] in within;
        MinOf(within)
      else k
    else k
  }

  lemma ReciprocalBounds(r: Rank)
    ensures 0.0 < 1.0 / (r as real) <= 1.0
  {
  }

  /** `sum(1 / rank for rank in positive_ranks)`. */
  function SumReciprocals(pr: seq<Rank>): (s: real)
    ensures |pr| > 0 ==> 0.0 < s <= |pr| as real
    ensures |pr| == 0 ==> s == 0.0
  {
    if pr == [] then 0.0
    else
      ReciprocalBounds(pr[|pr| - 1]);
      SumReciprocals(pr[..|pr| - 1]) + 1.0 / (pr[|pr| - 1] as real)
  }

  /** A CVE's contribution to MRR: the mean reciprocal rank of its relevant
      candidates, or 0 when it has none. */
  function ReciprocalRankMean(pr: seq<Rank>): (m: real)
    ensures |pr| == 0 ==> m == 0.0
    ensures |pr| > 0 ==> 0.0 < m <= 1.0
  {
    if |pr| > 0 then
      var s, d := SumReciprocals(pr), |pr| as real;
      MulPos(s / d, d);
      DivBetween(s, d, 0.0, 1.0);
      s / d
    else 0.0
  }

  function Sum(xs: seq<real>): real {
    if xs == [] then 0.0 else Sum(xs[..|xs| - 1]) + xs[|xs| - 1]
  }

  function SumInt(xs: seq<int>): int {
    if xs == [] then 0 else SumInt(xs[..|xs| - 1]) + xs[|xs| - 1]
  }

  /** `sum(xs) / len(xs) if xs else 0`. */
  function Mean(xs: seq<real>): real {
    if |xs| > 0 then Sum(xs) / |xs| as real else 0.0
  }

  /** The same for a list of integers, divided exactly. */
  function MeanInt(xs: seq<int>): real {
    if |xs| > 0 then SumInt(xs) as real / |xs| as real else 0.0
  }

  lemma {:induction false} SumBounds(xs: seq<real>, lo: real, hi: real)
    requires forall i :: 0 <= i < |xs| ==> lo <= xs[i] <= hi
    ensures |xs| as real * lo <= Sum(xs) <= |xs| as real * hi
  {
    if xs != [] {
      SumBounds(xs[..|xs| - 1], lo, hi);
    }
  }

  lemma {:induction false} SumIntBounds(xs: seq<int>, lo: int, hi: int)
    requires forall i :: 0 <= i < |xs| ==> lo <= xs[i] <= hi
    ensures |xs| * lo <= SumInt(xs) <= |xs| * hi
  {
    if xs != [] {
      var n := |xs|;
      SumIntBounds(xs[..n - 1], lo, hi);
      MulStep(n, lo, (n - 1) * lo);
      MulStep(n, hi, (n - 1) * hi);
    }
  }

  /** A mean lies between the bounds of what it averages. */
  lemma MeanBounds(xs: seq<real>, lo: real, hi: real)
    requires forall i :: 0 <= i < |xs| ==> lo <= xs[i] <= hi
    requires |xs| > 0
    ensures lo <= Mean(xs) <= hi
  {
    SumBounds(xs, lo, hi);
    DivBetween(Sum(xs), |xs| as real, lo, hi);
  }

  lemma MeanIntBounds(xs: seq<int>, lo: int, hi: int)
    requires forall i :: 0 <= i < |xs| ==> lo <= xs[i] <= hi
    requires |xs| > 0
    ensures lo as real <= MeanInt(xs) <= hi as real
  {
    SumIntBounds(xs, lo, hi);
    CastMulInt(|xs|, lo);
    CastMulInt(|xs|, hi);
    DivBetween(SumInt(xs) as real, |xs| as real, lo as real, hi as real);
  }

  lemma {:induction false} SumMonotone(xs: seq<real>, ys: seq<real>)
    requires |xs| == |ys|
    requires forall i :: 0 <= i < |xs| ==> xs[i] <= ys[i]
    ensures Sum(xs) <= Sum(ys)
  {
    if xs != [] {
      SumMonotone(xs[..|xs| - 1], ys[..|ys| - 1]);
    }
  }

  /** `recalls[k]` without repetition: one recall@k per CVE, in CVE order. */
  function RecallsAt(prs: seq<seq<Rank>>, k: int): seq<real> {
    seq(|prs|, j requires 0 <= j < |prs| => Recall(prs[j], k))
  }

  /** `manual_efforts[k]` without repetition: one min_rank_within_k per CVE. */
  function EffortsAt(prs: seq<seq<Rank>>, k: int): seq<int> {
    seq(|prs|, j requires 0 <= j < |prs| => MinRankWithinK(prs[j], k))
  }

  /** `mrrs`: one mean reciprocal rank per CVE. */
  function ReciprocalRankMeans(prs: seq<seq<Rank>>): seq<real> {
    seq(|prs|, j requires 0 <= j < |prs| => ReciprocalRankMean(prs[j]))
  }

  /** Average recall@k over all CVEs (`avg_recalls[k]`). */
  function AverageRecall(prs: seq<seq<Rank>>, k: int): real {
    Mean(RecallsAt(prs, k))
  }

  /** Average manual effort@k over all CVEs (`avg_manual_efforts[k]`). */
  function AverageManualEffort(prs: seq<seq<Rank>>, k: int): real {
    MeanInt(EffortsAt(prs, k))
  }

  /** MRR over all CVEs (`avg_mrr`). */
  function AverageMrr(prs: seq<seq<Rank>>): real {
    Mean(ReciprocalRankMeans(prs))
  }

  /** Average recall@k is a fraction, and 0 when no CVE was evaluated. */
  lemma AverageRecallBounds(prs: seq<seq<Rank>>, k: int)
    ensures 0.0 <= AverageRecall(prs, k) <= 1.0
    ensures |prs| == 0 ==> AverageRecall(prs, k) == 0.0
  {
    if |prs| > 0 {
      MeanBounds(RecallsAt(prs, k), 0.0, 1.0);
    }
  }

  /** Average recall@k never decreases as `k` grows. */
  lemma AverageRecallMonotone(prs: seq<seq<Rank>>, k1: int, k2: int)
    requires k1 <= k2
    ensures AverageRecall(prs, k1) <= AverageRecall(prs, k2)
  {
    var xs, ys := RecallsAt(prs, k1), RecallsAt(prs, k2);
    forall i | 0 <= i < |xs| ensures xs[i] <= ys[i] {
      RecallMonotone(prs[i], k1, k2);
    }
    SumMonotone(xs, ys);
    if |prs| > 0 {
      var n := |prs| as real;
      DivMonotone(Sum(xs), Sum(ys), n);
    }
  }

  /** MRR is a fraction, and 0 when no CVE was evaluated. */
  lemma AverageMrrBounds(prs: seq<seq<Rank>>)
    ensures 0.0 <= AverageMrr(prs) <= 1.0
    ensures |prs| == 0 ==> AverageMrr(prs) == 0.0
  {
    if |prs| > 0 {
      MeanBounds(ReciprocalRankMeans(prs), 0.0, 1.0);
    }
  }

  /** With at least one CVE, average manual effort@k lies in [1, k]; with
      none it is 0, not `k`. */
  lemma AverageManualEffortBounds(prs: seq<seq<Rank>>, k: int)
    ensures |prs| > 0 && 1 <= k ==> 1.0 <= AverageManualEffort(prs, k) <= k as real
    ensures |prs| == 0 ==> AverageManualEffort(prs, k) == 0.0
  {
    if |prs| > 0 && 1 <= k {
      MeanIntBounds(EffortsAt(prs, k), 1, k);
    }
  }

  /** `x` repeated `n` times. */
  function Repeat<T>(x: T, n: nat): seq<T> {
    if n == 0 then [] else Repeat(x, n - 1) + [x]
  }

  /** Each element of `xs` repeated `m` times in place: the list
      `compute_metrics` builds for a threshold that occurs `m` times in
      `k_values`. */
  function Spread<T>(xs: seq<T>, m: nat): seq<T> {
    if xs == [] then [] else Spread(xs[..|xs| - 1], m) + Repeat(xs[|xs| - 1], m)
  }

  lemma {:induction false} SumAppend(a: seq<real>, b: seq<real>)
    ensures Sum(a + b) == Sum(a) + Sum(b)
  {
    if b == [] {
      assert a + b == a;
    } else {
      assert (a + b)[..|a + b| - 1] == a + b[..|b| - 1];
      SumAppend(a, b[..|b| - 1]);
    }
  }

  lemma {:induction false} SumIntAppend(a: seq<int>, b: seq<int>)
    ensures SumInt(a + b) == SumInt(a) + SumInt(b)
  {
    if b == [] {
      assert a + b == a;
    } else {
      assert (a + b)[..|a + b| - 1] == a + b[..|b| - 1];
      SumIntAppend(a, b[..|b| - 1]);
    }
  }

  lemma {:induction false} RepeatLength<T>(x: T, n: nat)
    ensures |Repeat(x, n)| == n
  {
    if n > 0 {
      RepeatLength(x, n - 1);
    }
  }

  /** `x` added to itself `n` times: multiplication by a count, kept
      apart from the sequence reasoning below. */
  function Times(n: nat, x: real): real {
    if n == 0 then 0.0 else Times(n - 1, x) + x
  }

  lemma {:induction false} TimesIsProduct(n: nat, x: real)
    ensures Times(n, x) == n as real * x
  {
    if n > 0 {
      TimesIsProduct(n - 1, x);
      Distrib(x, (n - 1) as real, 1.0);
    }
  }

  lemma {:induction false} TimesAdd(n: nat, a: real, b: real)
    ensures Times(n, a + b) == Times(n, a) + Times(n, b)
  {
    if n > 0 {
      TimesAdd(n - 1, a, b);
    }
  }

  lemma {:induction false} RepeatSum(x: real, n: nat)
    ensures Sum(Repeat(x, n)) == Times(n, x)
  {
    if n > 0 {
      RepeatSum(x, n - 1);
      RepeatLength(x, n - 1);
    }
  }

  lemma {:induction false} RepeatSumInt(x: int, n: nat)
    ensures SumInt(Repeat(x, n)) == n * x
  {
    if n > 0 {
      RepeatSumInt(x, n - 1);
      RepeatLength(x, n - 1);
      var prev := SumInt(Repeat(x, n - 1));
      assert SumInt(Repeat(x, n)) == prev + x;
      MulStep(n, x, prev);
    }
  }

  lemma {:induction false} SpreadLength<T>(xs: seq<T>, m: nat)
    ensures |Spread(xs, m)| == m * |xs|
  {
    if xs != [] {
      var init, last := xs[..|xs| - 1], xs[|xs| - 1];
      SpreadLength(init, m);
      RepeatLength(last, m);
      DistribInt(m, |init|, 1);
    }
  }

  lemma {:induction false} SpreadSum(xs: seq<real>, m: nat)
    ensures Sum(Spread(xs, m)) == Times(m, Sum(xs))
  {
    if xs == [] {
      TimesIsProduct(m, 0.0);
      MulZero(m as real);
    } else {
      var init, last := xs[..|xs| - 1], xs[|xs| - 1];
      SpreadSum(init, m);
      RepeatSum(last, m);
      SumAppend(Spread(init, m), Repeat(last, m));
      TimesAdd(m, Sum(init), last);
    }
  }

  lemma {:induction false} SpreadSumInt(xs: seq<int>, m: nat)
    ensures SumInt(Spread(xs, m)) == m * SumInt(xs)
  {
    if xs != [] {
      var init, last := xs[..|xs| - 1], xs[|xs| - 1];
      SpreadSumInt(init, m);
      RepeatSumInt(last, m);
      SumIntAppend(Spread(init, m), Repeat(last, m));
      DistribInt(m, SumInt(init), last);
    }
  }

  /** `m` copies of a total over `m` copies of a count: the same ratio. */
  lemma TimesRatio(m: nat, s: real, n: nat)
    requires m >= 1 && n > 0
    ensures m * n > 0
    ensures Times(m, s) / (m * n) as real == s / n as real
  {
    var mr, nr := m as real, n as real;
    assert Times(m, s) == mr * s by {
      TimesIsProduct(m, s);
    }
    assert (m * n) as real == mr * nr by {
      CastMul(m, n);
    }
    MulPos(mr, nr);
    DivCancel(mr, s, nr);
  }

  lemma ScaledRatio(m: nat, s: int, n: nat)
    requires m >= 1 && n > 0
    ensures m * n > 0
    ensures (m * s) as real / (m * n) as real == s as real / n as real
  {
    var mr, nr := m as real, n as real;
    assert (m * s) as real == mr * s as real by {
      CastMulInt(m, s);
    }
    assert (m * n) as real == mr * nr by {
      CastMul(m, n);
    }
    MulPos(mr, nr);
    DivCancel(mr, s as real, nr);
  }

  /** Repeating every per-CVE value the same number of times leaves the
      mean unchanged: a threshold listed twice in `k_values` gets the same
      average as one listed once. */
  lemma SpreadMean(xs: seq<real>, m: nat)
    requires m >= 1
    ensures Mean(Spread(xs, m)) == Mean(xs)
  {
    if |xs| > 0 {
      SpreadSum(xs, m);
      SpreadLength(xs, m);
      TimesRatio(m, Sum(xs), |xs|);
    }
  }

  lemma SpreadMeanInt(xs: seq<int>, m: nat)
    requires m >= 1
    ensures MeanInt(Spread(xs, m)) == MeanInt(xs)
  {
    if |xs| > 0 {
      SpreadSumInt(xs, m);
      SpreadLength(xs, m);
      ScaledRatio(m, SumInt(xs), |xs|);
    }
  }

  /** With a threshold listed once, each CVE contributes exactly one entry. */
  lemma {:induction false} SpreadOnce<T>(xs: seq<T>)
    ensures Spread(xs, 1) == xs
  {
    if xs != [] {
      SpreadOnce(xs[..|xs| - 1]);
      assert Repeat(xs[|xs| - 1], 1) == [xs[|xs| - 1]];
    }
  }
}

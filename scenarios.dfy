/** Worked examples of the ranking and the metrics on small inputs. Scores
    are scaled to integers (0.5 becomes 5, 0.9 becomes 9), which keeps
    their order. */
module Scenarios {
  import opened Ranking
  import opened Metrics
  import opened Grouping
  import opened Evaluation

  /** Scores 0.5, 0.5, 0.9 with labels 1, 0, 1, in that order: the 0.9
      candidate gets rank 1, and of the two 0.5 candidates the earlier one
      gets rank 2 and the later one rank 3. */
  lemma StableRanks()
    ensures SortDesc([Item(5, 1), Item(5, 0), Item(9, 1)]) == [Item(9, 1), Item(5, 1), Item(5, 0)]
    ensures PositiveRanks([Item(9, 1), Item(5, 1), Item(5, 0)]) == [1, 2]
  {
    var s := [Item(5, 1), Item(5, 0), Item(9, 1)];
    assert s[..2] == [Item(5, 1), Item(5, 0)];
    assert s[..2][..1] == [Item(5, 1)];
    assert SortDesc(s[..2]) == [Item(5, 1), Item(5, 0)];
    var r := [Item(9, 1), Item(5, 1), Item(5, 0)];
    assert r[..2] == [Item(9, 1), Item(5, 1)];
    assert r[..2][..1] == [Item(9, 1)];
  }

  /** recall@k counts only ranks strictly below `k`. */
  lemma RecallIsStrict()
    ensures Recall([3], 3) == 0.0
    ensures Recall([3], 4) == 1.0
  {
  }

  /** min_rank_within_k falls back to `k`, both without relevant candidates
      and when the best one is not strictly below `k`. */
  lemma EffortFallback(k: int)
    ensures MinRankWithinK([], k) == k
    ensures MinRankWithinK([2], 5) == 2
    ensures MinRankWithinK([2], 2) == 2
  {
  }

  /** Relevant candidates at ranks 1 and 4 give (1/1 + 1/4) / 2. */
  lemma ReciprocalRankExample()
    ensures ReciprocalRankMean([1, 4]) == 0.625
  {
    assert [1, 4][..1] == [1];
  }

  /** With no CVE at all every average is 0; manual effort included, since
      the empty list falls to the `else 0` of the average. */
  lemma NoCves(k: int)
    ensures AverageRecall([], k) == 0.0
    ensures AverageMrr([]) == 0.0
    ensures AverageManualEffort([], k) == 0.0
  {
  }

  lemma SumPair(a: real, b: real)
    ensures Sum([a, b]) == a + b
  {
    assert [a, b][..1] == [a];
    assert [a][..0] == [];
    assert Sum([a]) == a;
  }

  /** Two CVEs: G1 with outputs 0.9 (relevant) and 0.1, G2 with 0.8 and 0.2,
      neither relevant. recall@1 averages to 0 (rank 1 is not below 1) and
      recall@2 to 0.5. */
  lemma TwoCves()
    ensures AverageRecall([[1], []], 1) == 0.0
    ensures AverageRecall([[1], []], 2) == 0.5
  {
    AverageRecallPair([1], [], 1);
    AverageRecallPair([1], [], 2);
  }

  /** The average over two CVEs is the mean of their two recalls. */
  lemma AverageRecallPair(p: seq<Rank>, q: seq<Rank>, k: int)
    ensures AverageRecall([p, q], k) == (Recall(p, k) + Recall(q, k)) / 2.0
  {
    assert RecallsAt([p, q], k) == [Recall(p, k), Recall(q, k)];
    SumPair(Recall(p, k), Recall(q, k));
  }

  /** The scored candidates of that example, in the order the batches
      produce them. */
  function TwoCveStream(): seq<Scored> {
    [Scored("G1", 9, 1), Scored("G1", 1, 0), Scored("G2", 8, 0), Scored("G2", 2, 0)]
  }

  lemma TwoCveKeys()
    ensures KeysOf(TwoCveStream()) == ["G1", "G2"]
  {
    var s := TwoCveStream();
    var s1, s2, s3 := s[..1], s[..2], s[..3];
    assert s[..3] == s3 && s3[..2] == s2 && s2[..1] == s1 && s1[..0] == [];
    assert s1[0].cve == "G1" && s2[1].cve == "G1" && s3[2].cve == "G2" && s[3].cve == "G2";
    assert KeysOf(s1) == ["G1"];
    assert KeysOf(s2) == ["G1"];
    assert KeysOf(s3) == ["G1", "G2"];
  }

  lemma TwoCveItems()
    ensures ItemsOf(TwoCveStream(), "G1") == [Item(9, 1), Item(1, 0)]
    ensures ItemsOf(TwoCveStream(), "G2") == [Item(8, 0), Item(2, 0)]
  {
    var s := TwoCveStream();
    var s1, s2, s3 := s[..1], s[..2], s[..3];
    assert s[..3] == s3 && s3[..2] == s2 && s2[..1] == s1 && s1[..0] == [];
    assert s1[0] == Scored("G1", 9, 1) && s2[1] == Scored("G1", 1, 0);
    assert s3[2] == Scored("G2", 8, 0) && s[3] == Scored("G2", 2, 0);
    assert ItemsOf(s1, "G1") == [Item(9, 1)];
    assert ItemsOf(s1, "G2") == [];
    assert ItemsOf(s2, "G1") == [Item(9, 1), Item(1, 0)];
    assert ItemsOf(s2, "G2") == [];
    assert ItemsOf(s3, "G1") == [Item(9, 1), Item(1, 0)];
    assert ItemsOf(s3, "G2") == [Item(8, 0)];
  }

  /** The positive ranks of that example, from the scored stream. */
  lemma TwoCvesRanks()
    ensures StreamRanks(TwoCveStream()) == [[1], []]
  {
    var s := TwoCveStream();
    var keys, lists := KeysOf(s), Grouped(s);
    assert keys == ["G1", "G2"] by { TwoCveKeys(); }
    assert lists["G1"] == [Item(9, 1), Item(1, 0)] by { TwoCveItems(); }
    assert lists["G2"] == [Item(8, 0), Item(2, 0)] by { TwoCveItems(); }
    GroupPairRanks(keys, lists);
    assert PositiveRanks(SortDesc(lists[keys[0]])) == [1] by { HighFirst(); }
    assert PositiveRanks(SortDesc(lists[keys[1]])) == [] by { NoneRelevant(); }
  }

  /** The positive ranks of two CVEs, one after the other. */
  lemma GroupPairRanks(keys: seq<string>, lists: map<string, seq<Item>>)
    requires |keys| == 2 && keys[0] in lists && keys[1] in lists
    ensures GroupPositiveRanks(keys, lists)
      == [PositiveRanks(SortDesc(lists[keys[0]])), PositiveRanks(SortDesc(lists[keys[1]]))]
  {
  }

  lemma HighFirst()
    ensures PositiveRanks(SortDesc([Item(9, 1), Item(1, 0)])) == [1]
  {
    var s := [Item(9, 1), Item(1, 0)];
    assert s[..1] == [Item(9, 1)];
    assert SortDesc(s) == s;
  }

  lemma NoneRelevant()
    ensures PositiveRanks(SortDesc([Item(8, 0), Item(2, 0)])) == []
  {
    var s := [Item(8, 0), Item(2, 0)];
    SortDescCountPositives(s);
    assert CountPositives(s[..1]) == 0;
  }
}

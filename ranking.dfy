/** Ranking of the candidates of one CVE: the stable descending sort of
    `compute_metrics`, the 1-based ranks it assigns and the ranks of the
    relevant candidates. */
module Ranking {

  /** One scored candidate of a CVE: the classifier's output and the
      ground-truth label. Only the order of scores matters, so they are
      integers here. */
  datatype Item = Item(score: int, groundTruth: int)

  /** A 1-based position in a ranked list. */
  type Rank = r: int | 1 <= r witness 1

  /** A candidate is relevant exactly when its label equals 1; any other
      label, whatever its value, is not. */
  predicate IsPositive(x: Item) {
    x.groundTruth == 1
  }

  /** Scores never increase along `s`. */
  predicate SortedDesc(s: seq<Item>) {
    forall i, j :: 0 <= i < j < |s| ==> s[i].score >= s[j].score
  }

  /** The items of `s` whose score is `v`, in their order in `s`. */
  function WithScore(s: seq<Item>, v: int): seq<Item> {
    if s == [] then []
    else WithScore(s[..|s| - 1], v) + (if s[|s| - 1].score == v then [s[|s| - 1]] else [])
  }

  lemma {:induction false} WithScoreMembers(s: seq<Item>, v: int)
    ensures forall y :: y in WithScore(s, v) <==> y in s && y.score == v
  {
    if s != [] {
      WithScoreMembers(s[..|s| - 1], v);
      assert s == s[..|s| - 1] + [s[|s| - 1]];
    }
  }

  /** Inserts `x` into a list sorted by descending score, behind every
      element whose score is at least that of `x`. */
  function InsertByScore(t: seq<Item>, x: Item): (r: seq<Item>)
    ensures multiset(r) == multiset(t) + multiset{x}
    ensures |r| == |t| + 1
  {
    if t == [] then [x]
    else if t[0].score >= x.score then
      assert t == [t[0]] + t[1..];
      [t[0]] + InsertByScore(t[1..], x)
    else [x] + t
  }

  /** The list `list.sort(key=score, reverse=True)` leaves behind: Python's
      sort is stable, so candidates taken in arrival order are each placed
      behind the earlier ones of equal score. */
  function SortDesc(s: seq<Item>): (r: seq<Item>)
    ensures multiset(r) == multiset(s)
    ensures |r| == |s|
  {
    if s == [] then []
    else
      assert s == s[..|s| - 1] + [s[|s| - 1]];
      InsertByScore(SortDesc(s[..|s| - 1]), s[|s| - 1])
  }

  lemma {:induction false} InsertSorted(t: seq<Item>, x: Item)
    requires SortedDesc(t)
    ensures SortedDesc(InsertByScore(t, x))
  {
    if t != [] && t[0].score >= x.score {
      var rest := InsertByScore(t[1..], x);
      InsertSorted(t[1..], x);
      forall j | 0 <= j < |rest| ensures t[0].score >= rest[j].score {
        assert rest[j] in multiset(rest);
        assert rest[j] in multiset(t[1..]) || rest[j] == x;
      }
    }
  }

  /** After the sort a group's list is ordered by descending score. */
  lemma {:induction false} SortDescSorted(s: seq<Item>)
    ensures SortedDesc(SortDesc(s))
  {
    if s != [] {
      SortDescSorted(s[..|s| - 1]);
      InsertSorted(SortDesc(s[..|s| - 1]), s[|s| - 1]);
    }
  }

  lemma {:induction false} WithScoreAppend(a: seq<Item>, b: seq<Item>, v: int)
    ensures WithScore(a + b, v) == WithScore(a, v) + WithScore(b, v)
  {
    if b == [] {
      assert a + b == a;
    } else {
      assert (a + b)[..|a + b| - 1] == a + b[..|b| - 1];
      WithScoreAppend(a, b[..|b| - 1], v);
    }
  }

  lemma {:induction false} WithScoreBelow(t: seq<Item>, v: int)
    requires SortedDesc(t) && (t != [] ==> t[0].score < v)
    ensures WithScore(t, v) == []
  {
    if t != [] {
      WithScoreBelow(t[..|t| - 1], v);
    }
  }

  /** `x` placed behind the head of `t`: the head's class is in front. */
  lemma InsertBehindHead(t: seq<Item>, x: Item, v: int, own: seq<Item>)
    requires t != [] && t[0].score >= x.score
    requires WithScore(InsertByScore(t[1..], x), v) == WithScore(t[1..], v) + own
    ensures WithScore(InsertByScore(t, x), v) == WithScore(t, v) + own
  {
    var head, rest, tail := WithScore([t[0]], v), InsertByScore(t[1..], x), WithScore(t[1..], v);
    assert WithScore(InsertByScore(t, x), v) == head + (tail + own) by {
      assert InsertByScore(t, x) == [t[0]] + rest;
      WithScoreAppend([t[0]], rest, v);
    }
    assert WithScore(t, v) == head + tail by {
      WithScoreAppend([t[0]], t[1..], v);
      assert [t[0]] + t[1..] == t;
    }
    ConcatAssoc(head, tail, own);
  }

  lemma ConcatAssoc<T>(a: seq<T>, b: seq<T>, c: seq<T>)
    ensures a + (b + c) == (a + b) + c
  {
  }

  /** `x` placed in front of all of `t`, whose scores are all below it. */
  lemma InsertInFront(t: seq<Item>, x: Item, v: int)
    requires SortedDesc(t) && t != [] && t[0].score < x.score
    ensures WithScore(InsertByScore(t, x), v) == WithScore(t, v) + (if x.score == v then [x] else [])
  {
    var own := if x.score == v then [x] else [];
    assert WithScore(InsertByScore(t, x), v) == own + WithScore(t, v) by {
      assert InsertByScore(t, x) == [x] + t;
      assert WithScore([x], v) == own by {
        assert [x][..0] == [];
      }
      WithScoreAppend([x], t, v);
    }
    if x.score == v {
      WithScoreBelow(t, v);
      assert own + [] == [] + own;
    } else {
      assert [] + WithScore(t, v) == WithScore(t, v) + [];
    }
  }

  lemma {:induction false} InsertStable(t: seq<Item>, x: Item, v: int)
    requires SortedDesc(t)
    ensures WithScore(InsertByScore(t, x), v) == WithScore(t, v) + (if x.score == v then [x] else [])
  {
    var own := if x.score == v then [x] else [];
    if t == [] {
      assert [x][..0] == [];
    } else if t[0].score >= x.score {
      InsertStable(t[1..], x, v);
      InsertBehindHead(t, x, v, own);
    } else {
      InsertInFront(t, x, v);
    }
  }

  /** The sort is stable: for every score, the candidates with that score
      keep their arrival order. */
  lemma {:induction false} SortDescStable(s: seq<Item>, v: int)
    ensures WithScore(SortDesc(s), v) == WithScore(s, v)
  {
    if s != [] {
      var init, last := s[..|s| - 1], s[|s| - 1];
      SortDescStable(init, v);
      SortDescSorted(init);
      InsertStable(SortDesc(init), last, v);
    }
  }

  /** The lowest score of a sorted list is the score of its last item. */
  lemma LastScoreLowest(a: seq<Item>, y: Item)
    requires SortedDesc(a) && a != [] && y in a
    ensures a[|a| - 1].score <= y.score
  {
  }

  /** Two sorted lists with the same score classes end with the same item. */
  lemma SameLast(a: seq<Item>, b: seq<Item>)
    requires SortedDesc(a) && SortedDesc(b) && a != [] && b != []
    requires forall v :: WithScore(a, v) == WithScore(b, v)
    ensures a[|a| - 1] == b[|b| - 1]
  {
    var x, y := a[|a| - 1], b[|b| - 1];
    assert x.score <= y.score by {
      WithScoreMembers(a, y.score);
      WithScoreMembers(b, y.score);
      assert y in WithScore(b, y.score);
      LastScoreLowest(a, y);
    }
    assert y.score <= x.score by {
      WithScoreMembers(a, x.score);
      WithScoreMembers(b, x.score);
      assert x in WithScore(a, x.score);
      LastScoreLowest(b, x);
    }
    var ca := WithScore(a, x.score);
    assert ca == WithScore(a[..|a| - 1], x.score) + [x];
    assert ca == WithScore(b[..|b| - 1], x.score) + [y];
    assert ca[|ca| - 1] == x;
  }

  /** Dropping the same last item keeps the score classes equal. */
  lemma SameInitClasses(a: seq<Item>, b: seq<Item>, a': seq<Item>, b': seq<Item>)
    requires a != [] && b != [] && a[|a| - 1] == b[|b| - 1]
    requires a' == a[..|a| - 1] && b' == b[..|b| - 1]
    requires forall v :: WithScore(a, v) == WithScore(b, v)
    ensures forall v :: WithScore(a', v) == WithScore(b', v)
  {
    var x := a[|a| - 1];
    forall v ensures WithScore(a', v) == WithScore(b', v) {
      var ca, cb := WithScore(a, v), WithScore(b, v);
      if v == x.score {
        assert WithScore(a', v) == ca[..|ca| - 1];
        assert WithScore(b', v) == cb[..|cb| - 1];
      } else {
        assert ca == WithScore(a', v);
        assert cb == WithScore(b', v);
      }
    }
  }

  lemma {:induction false} SameScoreClassesEqual(a: seq<Item>, b: seq<Item>)
    requires SortedDesc(a) && SortedDesc(b)
    requires forall v :: WithScore(a, v) == WithScore(b, v)
    ensures a == b
  {
    if a == [] && b != [] {
      WithScoreMembers(b, b[0].score);
      assert false;
    } else if a != [] && b == [] {
      WithScoreMembers(a, a[0].score);
      assert false;
    } else if a != [] {
      var a', b' := a[..|a| - 1], b[..|b| - 1];
      SameLast(a, b);
      SameInitClasses(a, b, a', b');
      SameScoreClassesEqual(a', b');
      assert a == a' + [a[|a| - 1]];
      assert b == b' + [b[|b| - 1]];
    }
  }

  /** Any arrangement of a group's list that is sorted by descending score
      and keeps the arrival order of equal scores IS `SortDesc` of it: the
      result of Python's stable sort is determined by its input. */
  lemma StableSortIsUnique(s: seq<Item>, r: seq<Item>)
    requires SortedDesc(r)
    requires forall v :: WithScore(r, v) == WithScore(s, v)
    ensures r == SortDesc(s)
  {
    SortDescSorted(s);
    forall v ensures WithScore(r, v) == WithScore(SortDesc(s), v) {
      SortDescStable(s, v);
    }
    SameScoreClassesEqual(r, SortDesc(s));
  }

  /** Number of relevant candidates in `s`. */
  function CountPositives(s: seq<Item>): nat {
    if s == [] then 0
    else CountPositives(s[..|s| - 1]) + (if IsPositive(s[|s| - 1]) then 1 else 0)
  }

  lemma {:induction false} CountPositivesAppend(a: seq<Item>, b: seq<Item>)
    ensures CountPositives(a + b) == CountPositives(a) + CountPositives(b)
  {
    if b == [] {
      assert a + b == a;
    } else {
      assert (a + b)[..|a + b| - 1] == a + b[..|b| - 1];
      CountPositivesAppend(a, b[..|b| - 1]);
    }
  }

  lemma {:induction false} InsertCountPositives(t: seq<Item>, x: Item)
    ensures CountPositives(InsertByScore(t, x)) == CountPositives(t) + (if IsPositive(x) then 1 else 0)
  {
    assert CountPositives([x]) == (if IsPositive(x) then 1 else 0) by {
      assert [x][..0] == [];
    }
    if t == [] {
    } else if t[0].score >= x.score {
      InsertCountPositives(t[1..], x);
      CountPositivesAppend([t[0]], InsertByScore(t[1..], x));
      CountPositivesAppend([t[0]], t[1..]);
      assert [t[0]] + t[1..] == t;
    } else {
      CountPositivesAppend([x], t);
    }
  }

  /** Sorting neither adds nor loses relevant candidates. */
  lemma {:induction false} SortDescCountPositives(s: seq<Item>)
    ensures CountPositives(SortDesc(s)) == CountPositives(s)
  {
    if s != [] {
      SortDescCountPositives(s[..|s| - 1]);
      InsertCountPositives(SortDesc(s[..|s| - 1]), s[|s| - 1]);
    }
  }

  /** `positive_ranks`: the 1-based ranks of the relevant candidates of a
      ranked list, ascending. */
  function PositiveRanks(ranked: seq<Item>): (r: seq<Rank>)
    ensures |r| == CountPositives(ranked)
  {
    if ranked == [] then []
    else
      var init := ranked[..|ranked| - 1];
      PositiveRanks(init) + (if IsPositive(ranked[|ranked| - 1]) then [|ranked|] else [])
  }

  lemma PositiveRanksSnoc(ranked: seq<Item>)
    requires ranked != []
    ensures PositiveRanks(ranked) == PositiveRanks(ranked[..|ranked| - 1])
      + (if IsPositive(ranked[|ranked| - 1]) then [|ranked| as Rank] else [])
  {
  }

  /** Each positive rank is the rank of a relevant candidate. */
  lemma {:induction false} PositiveRanksRelevant(ranked: seq<Item>)
    ensures forall j :: 0 <= j < |PositiveRanks(ranked)| ==>
      PositiveRanks(ranked)[j] <= |ranked| && IsPositive(ranked[PositiveRanks(ranked)[j] - 1])
  {
    if ranked != [] {
      var n := |ranked|;
      var init := ranked[..n - 1];
      var rest, r := PositiveRanks(init), PositiveRanks(ranked);
      PositiveRanksSnoc(ranked);
      PositiveRanksRelevant(init);
      forall j | 0 <= j < |r| ensures r[j] <= n && IsPositive(ranked[r[j] - 1]) {
        if j < |rest| {
          assert r[j] == rest[j] && ranked[rest[j] - 1] == init[rest[j] - 1];
        }
      }
    }
  }

  /** The rank of every relevant candidate is a positive rank. */
  lemma {:induction false} PositiveRanksComplete(ranked: seq<Item>)
    ensures forall i :: 0 <= i < |ranked| && IsPositive(ranked[i]) ==> i + 1 in PositiveRanks(ranked)
  {
    if ranked != [] {
      var n := |ranked|;
      var init := ranked[..n - 1];
      var rest, r := PositiveRanks(init), PositiveRanks(ranked);
      PositiveRanksSnoc(ranked);
      PositiveRanksComplete(init);
      forall i | 0 <= i < n && IsPositive(ranked[i]) ensures i + 1 in r {
        if i < n - 1 {
          assert init[i] == ranked[i];
          assert i + 1 in rest;
        } else {
          assert r[|r| - 1] == n;
        }
      }
    }
  }

  /** The positive ranks ascend strictly, so none is listed twice. */
  lemma {:induction false} PositiveRanksAscending(ranked: seq<Item>)
    ensures forall i, j :: 0 <= i < j < |PositiveRanks(ranked)| ==> PositiveRanks(ranked)[i] < PositiveRanks(ranked)[j]
  {
    if ranked != [] {
      var n := |ranked|;
      var init := ranked[..n - 1];
      var rest, r := PositiveRanks(init), PositiveRanks(ranked);
      PositiveRanksSnoc(ranked);
      PositiveRanksAscending(init);
      PositiveRanksRelevant(init);
      forall i, j | 0 <= i < j < |r| ensures r[i] < r[j] {
        if j < |rest| {
          assert r[i] == rest[i] && r[j] == rest[j];
        } else {
          assert r[i] == rest[i] <= n - 1;
        }
      }
    }
  }

  /** One row `(cve, rank, label)` of the rank table. */
  datatype RankRow = RankRow(cve: string, rank: Rank, groundTruth: int)

  /** The rank-table rows of one CVE's ranked list, rank 1 first. */
  function RankRows(cve: string, ranked: seq<Item>): seq<RankRow> {
    seq(|ranked|, i requires 0 <= i < |ranked| => RankRow(cve, i + 1, ranked[i].groundTruth))
  }

  /** The rank table and the metrics agree: a row of the group with label 1
      and rank `r` exists exactly when `r` is one of the group's positive
      ranks, and the rows hold ranks 1..n in order with each candidate's
      own label. */
  lemma RankRowsAgree(cve: string, ranked: seq<Item>)
    ensures |RankRows(cve, ranked)| == |ranked|
    ensures forall i :: 0 <= i < |ranked| ==>
      RankRows(cve, ranked)[i].rank == i + 1 && RankRows(cve, ranked)[i].groundTruth == ranked[i].groundTruth
    ensures forall r: Rank :: RankRow(cve, r, 1) in RankRows(cve, ranked) <==> r in PositiveRanks(ranked)
  {
    var rows := RankRows(cve, ranked);
    PositiveRanksRelevant(ranked);
    PositiveRanksComplete(ranked);
    forall r: Rank ensures RankRow(cve, r, 1) in rows <==> r in PositiveRanks(ranked) {
      if RankRow(cve, r, 1) in rows {
        var i :| 0 <= i < |rows| && rows[i] == RankRow(cve, r, 1);
        assert IsPositive(ranked[i]);
      }
      if r in PositiveRanks(ranked) {
        assert rows[r - 1] == RankRow(cve, r, 1);
      }
    }
  }
}

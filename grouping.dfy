/** Grouping of scored candidates by CVE, as `evaluate` does with
    `cve_data.setdefault(cve, []).append((output, label))`: a dictionary
    from CVE id to the list of its candidates, keys in first-seen order. */
module Grouping {
  import opened Ranking

  /** One element of the scoring stream: CVE id, classifier output, label. */
  datatype Scored = Scored(cve: string, score: int, groundTruth: int)

  /** One test batch after scoring: the CVE ids and labels of the batch and
      the classifier's outputs for it. */
  datatype ScoredBatch = ScoredBatch(cves: seq<string>, outputs: seq<int>, groundTruths: seq<int>)

  function Min3(a: nat, b: nat, c: nat): nat {
    if a <= b && a <= c then a else if b <= c then b else c
  }

  /** `zip(batch['cve'], output, batch['label'])`: stops at the shortest of
      the three lists. */
  function Zip(b: ScoredBatch): (r: seq<Scored>)
    ensures |r| <= |b.cves| && |r| <= |b.outputs| && |r| <= |b.groundTruths|
    ensures |r| == |b.cves| || |r| == |b.outputs| || |r| == |b.groundTruths|
    ensures forall i :: 0 <= i < |r| ==> r[i] == Scored(b.cves[i], b.outputs[i], b.groundTruths[i])
  {
    var n := Min3(|b.cves|, |b.outputs|, |b.groundTruths|);
    seq(n, i requires 0 <= i < n => Scored(b.cves[i], b.outputs[i], b.groundTruths[i]))
  }

  /** All scored candidates of the test set, batch after batch. */
  function Stream(batches: seq<ScoredBatch>): seq<Scored> {
    if batches == [] then []
    else Stream(batches[..|batches| - 1]) + Zip(batches[|batches| - 1])
  }

  /** The dictionary's keys: each CVE id of `stream` once, in order of
      first appearance. */
  function KeysOf(stream: seq<Scored>): (keys: seq<string>)
    ensures forall i, j :: 0 <= i < j < |keys| ==> keys[i] != keys[j]
  {
    if stream == [] then []
    else
      var keys := KeysOf(stream[..|stream| - 1]);
      var c := stream[|stream| - 1].cve;
      if c in keys then keys else keys + [c]
  }

  /** A CVE id is a key exactly when some candidate of the stream carries it. */
  lemma {:induction false} KeysOfMembers(stream: seq<Scored>, c: string)
    ensures c in KeysOf(stream) <==> exists i :: 0 <= i < |stream| && stream[i].cve == c
  {
    if stream != [] {
      var init := stream[..|stream| - 1];
      KeysOfMembers(init, c);
      if exists i :: 0 <= i < |init| && init[i].cve == c {
        var i :| 0 <= i < |init| && init[i].cve == c;
        assert stream[i].cve == c;
      }
      if exists i :: 0 <= i < |stream| && stream[i].cve == c {
        var i :| 0 <= i < |stream| && stream[i].cve == c;
        if i < |init| {
          assert init[i].cve == c;
        }
      }
    }
  }

  /** Keys are in order of first appearance: for an earlier key `i` and a
      later key `j`, the stream carries `keys[i]` at some position `p` before
      `keys[j]` appears at all. */
  lemma {:induction false} KeysOfFirstSeen(stream: seq<Scored>, i: nat, j: nat)
    requires i < j < |KeysOf(stream)|
    ensures exists p ::
      && 0 <= p < |stream| && stream[p].cve == KeysOf(stream)[i]
      && forall q :: 0 <= q <= p ==> stream[q].cve != KeysOf(stream)[j]
  {
    var n := |stream|;
    var init := stream[..n - 1];
    var keys, c := KeysOf(init), stream[n - 1].cve;
    if j < |keys| {
      KeysOfFirstSeen(init, i, j);
      var p :| 0 <= p < |init| && init[p].cve == keys[i]
        && forall q :: 0 <= q <= p ==> init[q].cve != keys[j];
      assert stream[p] == init[p];
      assert forall q :: 0 <= q <= p ==> stream[q] == init[q];
    } else {
      assert c !in keys && KeysOf(stream) == keys + [c];
      KeysOfMembers(init, keys[i]);
      KeysOfMembers(init, c);
      assert keys[i] in keys;
      var p :| 0 <= p < |init| && init[p].cve == keys[i];
      assert stream[p] == init[p];
      assert forall q :: 0 <= q <= p ==> stream[q] == init[q];
    }
  }

  /** The candidates of CVE `c`, in arrival order. */
  function ItemsOf(stream: seq<Scored>, c: string): seq<Item> {
    if stream == [] then []
    else
      var x := stream[|stream| - 1];
      ItemsOf(stream[..|stream| - 1], c) + (if x.cve == c then [Item(x.score, x.groundTruth)] else [])
  }

  /** The dictionary `cve_data` holds after the whole stream. */
  function Grouped(stream: seq<Scored>): map<string, seq<Item>> {
    map c | c in KeysOf(stream) :: ItemsOf(stream, c)
  }

  /** Total number of candidates stored under `keys`. */
  function TotalItems(keys: seq<string>, lists: map<string, seq<Item>>): nat
    requires forall c :: c in keys ==> c in lists
  {
    if keys == [] then 0
    else TotalItems(keys[..|keys| - 1], lists) + |lists[keys[|keys| - 1]]|
  }

  /** A CVE is a key exactly when it has candidates, and then its list is
      not empty. */
  lemma {:induction false} ItemsOfNonEmpty(stream: seq<Scored>, c: string)
    ensures |ItemsOf(stream, c)| > 0 <==> c in KeysOf(stream)
  {
    if stream != [] {
      ItemsOfNonEmpty(stream[..|stream| - 1], c);
    }
  }

  /** Every key of the dictionary has a non-empty list. */
  lemma GroupedNonEmpty(stream: seq<Scored>)
    ensures Grouped(stream).Keys == set c | c in KeysOf(stream)
    ensures forall c :: c in Grouped(stream) ==> |Grouped(stream)[c]| > 0
  {
    forall c | c in Grouped(stream) ensures |Grouped(stream)[c]| > 0 {
      ItemsOfNonEmpty(stream, c);
    }
  }

  lemma ItemsOfSnoc(stream: seq<Scored>, x: Scored, c: string)
    ensures ItemsOf(stream + [x], c) == ItemsOf(stream, c) + (if x.cve == c then [Item(x.score, x.groundTruth)] else [])
  {
    var s := stream + [x];
    assert s[..|s| - 1] == stream;
  }

  /** Appending one candidate: `setdefault(...).append(...)`. */
  lemma GroupedSnoc(stream: seq<Scored>, x: Scored)
    ensures KeysOf(stream + [x]) == if x.cve in Grouped(stream) then KeysOf(stream) else KeysOf(stream) + [x.cve]
    ensures Grouped(stream + [x]) == Grouped(stream)[x.cve :=
      (if x.cve in Grouped(stream) then Grouped(stream)[x.cve] else []) + [Item(x.score, x.groundTruth)]]
  {
    var s := stream + [x];
    assert s[..|s| - 1] == stream;
    var g := Grouped(stream);
    var old_ := if x.cve in g then g[x.cve] else [];
    assert ItemsOf(stream, x.cve) == old_ by {
      ItemsOfNonEmpty(stream, x.cve);
    }
    GroupedSnocMaps(stream, x, old_);
  }

  lemma GroupedSnocMaps(stream: seq<Scored>, x: Scored, old_: seq<Item>)
    requires ItemsOf(stream, x.cve) == old_
    requires KeysOf(stream + [x]) == if x.cve in Grouped(stream) then KeysOf(stream) else KeysOf(stream) + [x.cve]
    ensures Grouped(stream + [x]) == Grouped(stream)[x.cve := old_ + [Item(x.score, x.groundTruth)]]
  {
    var g, g' := Grouped(stream), Grouped(stream + [x]);
    var h := g[x.cve := old_ + [Item(x.score, x.groundTruth)]];
    assert g'.Keys == h.Keys;
    forall c | c in g' ensures g'[c] == h[c] {
      ItemsOfSnoc(stream, x, c);
    }
  }

  lemma {:induction false} TotalItemsSame(keys: seq<string>, a: map<string, seq<Item>>, b: map<string, seq<Item>>)
    requires forall c :: c in keys ==> c in a && c in b && |a[c]| == |b[c]|
    ensures TotalItems(keys, a) == TotalItems(keys, b)
  {
    if keys != [] {
      TotalItemsSame(keys[..|keys| - 1], a, b);
    }
  }

  lemma {:induction false} TotalItemsGrow(keys: seq<string>, lists: map<string, seq<Item>>, c: string, v: seq<Item>)
    requires forall d :: d in keys ==> d in lists
    requires forall i, j :: 0 <= i < j < |keys| ==> keys[i] != keys[j]
    requires c in keys && |v| == |lists[c]| + 1
    ensures TotalItems(keys, lists[c := v]) == TotalItems(keys, lists) + 1
  {
    var init, last := keys[..|keys| - 1], keys[|keys| - 1];
    if last == c {
      TotalItemsSame(init, lists, lists[c := v]);
    } else {
      TotalItemsGrow(init, lists, c, v);
    }
  }

  lemma TotalItemsNew(keys: seq<string>, lists: map<string, seq<Item>>, c: string, v: seq<Item>)
    requires forall d :: d in keys ==> d in lists
    requires c !in keys
    ensures TotalItems(keys + [c], lists[c := v]) == TotalItems(keys, lists) + |v|
  {
    assert (keys + [c])[..|keys|] == keys;
    TotalItemsSame(keys, lists, lists[c := v]);
  }

  /** One more candidate stored under a CVE already seen. */
  lemma TotalSeenCve(stream: seq<Scored>, x: Scored)
    requires x.cve in Grouped(stream)
    ensures TotalItems(KeysOf(stream + [x]), Grouped(stream + [x])) == TotalItems(KeysOf(stream), Grouped(stream)) + 1
  {
    var g := Grouped(stream);
    GroupedSnoc(stream, x);
    TotalItemsGrow(KeysOf(stream), g, x.cve, g[x.cve] + [Item(x.score, x.groundTruth)]);
  }

  /** The first candidate of a new CVE. */
  lemma TotalNewCve(stream: seq<Scored>, x: Scored)
    requires x.cve !in Grouped(stream)
    ensures TotalItems(KeysOf(stream + [x]), Grouped(stream + [x])) == TotalItems(KeysOf(stream), Grouped(stream)) + 1
  {
    var item := Item(x.score, x.groundTruth);
    GroupedSnoc(stream, x);
    assert [] + [item] == [item];
    TotalItemsNew(KeysOf(stream), Grouped(stream), x.cve, [item]);
  }

  /** The dictionary stores every scored candidate exactly once. */
  lemma {:induction false} GroupedTotal(stream: seq<Scored>)
    ensures TotalItems(KeysOf(stream), Grouped(stream)) == |stream|
  {
    if stream != [] {
      var init, x := stream[..|stream| - 1], stream[|stream| - 1];
      GroupedTotal(init);
      assert init + [x] == stream;
      if x.cve in Grouped(init) {
        TotalSeenCve(init, x);
      } else {
        TotalNewCve(init, x);
      }
    }
  }

  /** The dictionary `cve_data` that `evaluate` fills: its keys in
      insertion order and the list stored under each. */
  class CveData {
    var keys: seq<string>
    var lists: map<string, seq<Item>>

    /** Each key once, and exactly the keys of the map. */
    ghost predicate Valid()
      reads this
    {
      && (forall i, j :: 0 <= i < j < |keys| ==> keys[i] != keys[j])
      && (forall c :: c in lists <==> c in keys)
    }

    /** `cve_data = {}`. */
    constructor ()
      ensures Valid() && keys == [] && lists == map[]
    {
      keys := [];
      lists := map[];
    }

    /** `cve_data.setdefault(x.cve, []).append((x.score, x.label))`. */
    method Record(x: Scored)
      requires Valid()
      modifies this
      ensures Valid()
      ensures keys == if x.cve in old(lists) then old(keys) else old(keys) + [x.cve]
      ensures lists == old(lists)[x.cve :=
        (if x.cve in old(lists) then old(lists)[x.cve] else []) + [Item(x.score, x.groundTruth)]]
    {
      var item := Item(x.score, x.groundTruth);
      if x.cve in lists {
        lists := lists[x.cve := lists[x.cve] + [item]];
      } else {
        keys := keys + [x.cve];
        assert [] + [item] == [item];
        lists := lists[x.cve := [item]];
      }
    }

    /** `data.sort(key=lambda x: x[0], reverse=True)` on the list stored
        under `cve`, in place. */
    method SortGroup(cve: string)
      requires Valid() && cve in lists
      modifies this
      ensures Valid() && keys == old(keys)
      ensures lists == old(lists)[cve := SortDesc(old(lists)[cve])]
    {
      lists := lists[cve := SortDesc(lists[cve])];
    }
  }

  /** Records the candidates of one batch, in order, into a dictionary
      that already holds the grouping of the stream `before`. */
  method RecordBatch(cveData: CveData, triples: seq<Scored>, ghost before: seq<Scored>)
    requires cveData.Valid()
    requires cveData.keys == KeysOf(before) && cveData.lists == Grouped(before)
    modifies cveData
    ensures cveData.Valid()
    ensures cveData.keys == KeysOf(before + triples) && cveData.lists == Grouped(before + triples)
  {
    assert before + triples[..0] == before;
    for i := 0 to |triples|
      invariant cveData.Valid()
      invariant cveData.keys == KeysOf(before + triples[..i])
      invariant cveData.lists == Grouped(before + triples[..i])
    {
      ghost var done := before + triples[..i];
      assert before + triples[..i + 1] == done + [triples[i]] by {
        assert triples[..i + 1] == triples[..i] + [triples[i]];
      }
      GroupedSnoc(done, triples[i]);
      cveData.Record(triples[i]);
    }
    assert triples[..|triples|] == triples;
  }

  /** The grouping loop of `evaluate`: every candidate of every batch is
      appended to its CVE's list, batch after batch. */
  method GroupBatches(batches: seq<ScoredBatch>) returns (cveData: CveData)
    ensures fresh(cveData) && cveData.Valid()
    ensures cveData.keys == KeysOf(Stream(batches))
    ensures cveData.lists == Grouped(Stream(batches))
  {
    cveData := new CveData();
    for b := 0 to |batches|
      invariant fresh(cveData) && cveData.Valid()
      invariant cveData.keys == KeysOf(Stream(batches[..b]))
      invariant cveData.lists == Grouped(Stream(batches[..b]))
    {
      ghost var before := Stream(batches[..b]);
      var triples := Zip(batches[b]);
      RecordBatch(cveData, triples, before);
      assert Stream(batches[..b + 1]) == before + triples by {
        assert batches[..b + 1][..b] == batches[..b];
      }
    }
    assert batches[..|batches|] == batches;
  }
}

/**
 * GET /top-selling-items: the aggregation pipeline
 *   $group {_id: "$foodUID", totalOrders: {$sum: "$dishOrdered"}}, $sort {totalOrders: -1}, $limit 6
 * as a function of the order documents.
 */
module TopSelling {
  import opened Bson
  import opened Sorting

  /** The `$limit` stage. */
  const Limit: nat := 6

  /** One `$group` output document, `{_id: foodUID, totalOrders}`. */
  datatype Group = Group(foodUID: Value, totalOrders: int)

  /** The group an order falls in; an order without `foodUID` falls in the null group. */
  function GroupKey(d: Doc): Value
  {
    Get(d, "foodUID")
  }

  /** What an order adds to its group's `$sum`: its `dishOrdered` when that is a number. */
  function Quantity(d: Doc): int
  {
    Numeric(Get(d, "dishOrdered"))
  }

  /** The `_id`s the `$group` stage produces: one per distinct `foodUID`. */
  ghost function GroupIds(docs: seq<Doc>): set<Value>
  {
    set d | d in docs :: GroupKey(d)
  }

  /** `$sum: "$dishOrdered"` over the orders of group `k`. */
  function Total(docs: seq<Doc>, k: Value): int
  {
    if docs == [] then 0
    else (if GroupKey(docs[0]) == k then Quantity(docs[0]) else 0) + Total(docs[1..], k)
  }

  function DistinctKeys(docs: seq<Doc>): (ks: seq<Value>)
    ensures NoDup(ks)
    ensures forall k :: k in ks <==> k in GroupIds(docs)
  {
    if docs == [] then []
    else
      var rest := DistinctKeys(docs[1..]);
      var k := GroupKey(docs[0]);
      assert docs == [docs[0]] + docs[1..];
      assert GroupIds(docs) == GroupIds(docs[1..]) + {k};
      if k in rest then rest
      else
        assert NoDup([k] + rest) by {
          forall i, j | 0 <= i < j < |[k] + rest| ensures ([k] + rest)[i] != ([k] + rest)[j] {
            assert ([k] + rest)[j] == rest[j - 1];
            if i > 0 {
              assert ([k] + rest)[i] == rest[i - 1];
            }
          }
        }
        [k] + rest
  }

  /** The `$group` stage: one group per `foodUID`, carrying its total. */
  function GroupStage(docs: seq<Doc>): (gs: seq<Group>)
    ensures NoDup(gs)
    ensures forall g :: g in gs <==> g.foodUID in GroupIds(docs) && g.totalOrders == Total(docs, g.foodUID)
  {
    var ks := DistinctKeys(docs);
    var gs := seq(|ks|, i requires 0 <= i < |ks| => Group(ks[i], Total(docs, ks[i])));
    assert forall g :: g in gs ==> g.foodUID in ks && g.totalOrders == Total(docs, g.foodUID);
    assert forall k :: k in ks ==> Group(k, Total(docs, k)) in gs by {
      forall k | k in ks ensures Group(k, Total(docs, k)) in gs {
        var i :| 0 <= i < |ks| && ks[i] == k;
        assert gs[i] == Group(k, Total(docs, k));
      }
    }
    assert NoDup(gs) by {
      forall i, j | 0 <= i < j < |gs| ensures gs[i] != gs[j] {
        assert gs[i].foodUID == ks[i] && gs[j].foodUID == ks[j];
      }
    }
    gs
  }

  /** The `$sort` key. */
  function TotalKey(g: Group): Value
  {
    Num(g.totalOrders)
  }

  /** The `$limit` stage. */
  function Cut(s: seq<Group>): (r: seq<Group>)
    ensures |r| <= Limit && |r| <= |s|
    ensures forall i :: 0 <= i < |r| ==> r[i] == s[i]
    ensures |s| <= Limit ==> r == s
    ensures |s| > Limit ==> |r| == Limit
  {
    if |s| <= Limit then s else s[..Limit]
  }


  ghost function Returned(r: seq<Group>): set<Value>
  {
    set g | g in r :: g.foodUID
  }

  /**
   * What the pipeline promises: at most six groups, each `foodUID` once, each
   * total the sum over that food's orders, largest totals first, no group left
   * out that sells more than one returned, and every group returned when fewer
   * than six come back.
   */
  ghost predicate IsTopSelling(docs: seq<Doc>, r: seq<Group>)
  {
    && |r| <= Limit
    && (forall i :: 0 <= i < |r| ==> r[i].foodUID in GroupIds(docs) && r[i].totalOrders == Total(docs, r[i].foodUID))
    && (forall i, j :: 0 <= i < j < |r| ==> r[i].foodUID != r[j].foodUID)
    && (forall i, j :: 0 <= i < j < |r| ==> r[j].totalOrders <= r[i].totalOrders)
    && (forall k, i :: k in GroupIds(docs) && k !in Returned(r) && 0 <= i < |r| ==> Total(docs, k) <= r[i].totalOrders)
    && (|r| < Limit ==> GroupIds(docs) <= Returned(r))
  }

  /** The sorted groups, before the `$limit`: every group once, in non-increasing order of total. */
  ghost predicate Ranked(docs: seq<Doc>, s: seq<Group>)
  {
    && NoDup(s)
    && SortedDesc(s, TotalKey)
    && forall g :: g in s <==> g.foodUID in GroupIds(docs) && g.totalOrders == Total(docs, g.foodUID)
  }

  lemma SortStageRanks(docs: seq<Doc>)
    ensures Ranked(docs, SortDesc(GroupStage(docs), TotalKey))
  {
    var gs := GroupStage(docs);
    var s := SortDesc(gs, TotalKey);
    SortDescSorted(gs, TotalKey);
    SortDescNoDup(gs, TotalKey);
    forall g ensures g in s <==> g in gs {
      assert g in s <==> g in multiset(s);
      assert g in gs <==> g in multiset(gs);
    }
  }

  lemma RankedEntries(docs: seq<Doc>, s: seq<Group>)
    requires Ranked(docs, s)
    ensures forall i :: 0 <= i < |s| ==> s[i].foodUID in GroupIds(docs) && s[i].totalOrders == Total(docs, s[i].foodUID)
    ensures forall i, j :: 0 <= i < j < |s| ==> s[i].foodUID != s[j].foodUID
    ensures forall i, j :: 0 <= i < j < |s| ==> s[j].totalOrders <= s[i].totalOrders
  {
  }

  lemma CutKeepsLargest(docs: seq<Doc>, s: seq<Group>)
    requires Ranked(docs, s)
    ensures forall k, i :: k in GroupIds(docs) && k !in Returned(Cut(s)) && 0 <= i < |Cut(s)| ==> Total(docs, k) <= Cut(s)[i].totalOrders
    ensures |Cut(s)| < Limit ==> GroupIds(docs) <= Returned(Cut(s))
  {
    var r := Cut(s);
    assert forall q :: 0 <= q < |r| ==> s[q].foodUID in Returned(r) by {
      forall q | 0 <= q < |r| ensures s[q].foodUID in Returned(r) {
        assert r[q] in r;
      }
    }
    forall k, i | k in GroupIds(docs) && k !in Returned(r) && 0 <= i < |r|
      ensures Total(docs, k) <= r[i].totalOrders
    {
      var g := Group(k, Total(docs, k));
      assert g in s;
      var p :| 0 <= p < |s| && s[p] == g;
      assert |r| <= p;
      assert ValueLe(TotalKey(s[p]), TotalKey(s[i]));
    }
    if |r| < Limit {
      forall k | k in GroupIds(docs) ensures k in Returned(r) {
        assert Group(k, Total(docs, k)) in r;
      }
    }
  }

  /** The whole pipeline, which meets its specification on every order sequence. */
  function TopSellingItems(docs: seq<Doc>): (r: seq<Group>)
    ensures IsTopSelling(docs, r)
  {
    var s := SortDesc(GroupStage(docs), TotalKey);
    SortStageRanks(docs);
    RankedEntries(docs, s);
    CutKeepsLargest(docs, s);
    Cut(s)
  }

  function SumQuantities(docs: seq<Doc>): int
  {
    if docs == [] then 0 else Quantity(docs[0]) + SumQuantities(docs[1..])
  }

  function SumTotals(gs: seq<Group>): int
  {
    if gs == [] then 0 else gs[0].totalOrders + SumTotals(gs[1..])
  }

  /** The totals of the groups named by `ks`. */
  function SumOver(docs: seq<Doc>, ks: seq<Value>): int
  {
    if ks == [] then 0 else Total(docs, ks[0]) + SumOver(docs, ks[1..])
  }

  lemma {:induction false} TotalOfAbsent(docs: seq<Doc>, k: Value)
    requires k !in GroupIds(docs)
    ensures Total(docs, k) == 0
  {
    if docs != [] {
      assert docs[0] in docs;
      assert GroupIds(docs[1..]) <= GroupIds(docs) by {
        forall v | v in GroupIds(docs[1..]) ensures v in GroupIds(docs) {
          var d :| d in docs[1..] && GroupKey(d) == v;
          assert d in docs;
        }
      }
      TotalOfAbsent(docs[1..], k);
    }
  }

  /** Peeling the first order off: it adds its quantity to its own group only. */
  lemma {:induction false} SumOverFirst(docs: seq<Doc>, ks: seq<Value>)
    requires docs != [] && NoDup(ks)
    ensures SumOver(docs, ks) ==
      SumOver(docs[1..], ks) + (if GroupKey(docs[0]) in ks then Quantity(docs[0]) else 0)
  {
    if ks != [] {
      assert NoDup(ks[1..]) by {
        forall i, j | 0 <= i < j < |ks[1..]| ensures ks[1..][i] != ks[1..][j] {
          assert ks[1..][i] == ks[i + 1] && ks[1..][j] == ks[j + 1];
        }
      }
      SumOverFirst(docs, ks[1..]);
      assert GroupKey(docs[0]) in ks <==> GroupKey(docs[0]) == ks[0] || GroupKey(docs[0]) in ks[1..];
      assert ks[0] !in ks[1..];
    }
  }

  lemma {:induction false} SumOverGroups(docs: seq<Doc>, ks: seq<Value>)
    ensures SumTotals(seq(|ks|, i requires 0 <= i < |ks| => Group(ks[i], Total(docs, ks[i])))) == SumOver(docs, ks)
  {
    if ks != [] {
      var gs := seq(|ks|, i requires 0 <= i < |ks| => Group(ks[i], Total(docs, ks[i])));
      var tail := ks[1..];
      assert gs[1..] == seq(|tail|, i requires 0 <= i < |tail| => Group(tail[i], Total(docs, tail[i])));
      SumOverGroups(docs, tail);
    }
  }

  lemma {:induction false} DistinctKeysConserve(docs: seq<Doc>)
    ensures SumOver(docs, DistinctKeys(docs)) == SumQuantities(docs)
  {
    if docs != [] {
      var ks := DistinctKeys(docs);
      var rest := DistinctKeys(docs[1..]);
      var k := GroupKey(docs[0]);
      DistinctKeysConserve(docs[1..]);
      SumOverFirst(docs, ks);
      assert k in ks;
      if k !in rest {
        assert ks == [k] + rest;
        assert ks[1..] == rest;
        TotalOfAbsent(docs[1..], k);
      }
    }
  }

  /** Grouping loses and duplicates nothing: the group totals add up to all quantities ordered. */
  lemma GroupingConserves(docs: seq<Doc>)
    ensures SumTotals(GroupStage(docs)) == SumQuantities(docs)
  {
    SumOverGroups(docs, DistinctKeys(docs));
    DistinctKeysConserve(docs);
  }

  /** Orders {a, 3}, {b, 5}, {a, 2}. */
  function ExampleOrders(a: Value, b: Value): seq<Doc>
  {
    [map["foodUID" := a, "dishOrdered" := Num(3)],
     map["foodUID" := b, "dishOrdered" := Num(5)],
     map["foodUID" := a, "dishOrdered" := Num(2)]]
  }

  lemma ExampleGroups(a: Value, b: Value)
    requires a != b
    ensures GroupIds(ExampleOrders(a, b)) == {a, b}
    ensures Total(ExampleOrders(a, b), a) == 5 && Total(ExampleOrders(a, b), b) == 5
  {
    var docs := ExampleOrders(a, b);
    assert GroupKey(docs[0]) == a && GroupKey(docs[1]) == b && GroupKey(docs[2]) == a;
    assert Quantity(docs[0]) == 3 && Quantity(docs[1]) == 5 && Quantity(docs[2]) == 2;
    var last := docs[1..][1..];
    assert last == [docs[2]] && last[1..] == [];
    assert Total(last, a) == 2 && Total(last, b) == 0;
    assert Total(docs[1..], a) == 2 && Total(docs[1..], b) == 5;
    assert docs == [docs[0]] + docs[1..] && docs[1..] == [docs[1]] + last;
  }

  /** The `_id`s of a ranking are its first group's and those of the rest. */
  lemma ReturnedCons(r: seq<Group>)
    requires r != []
    ensures Returned(r) == {r[0].foodUID} + Returned(r[1..])
  {
    var tail := r[1..];
    forall v | v in Returned(r) ensures v == r[0].foodUID || v in Returned(tail) {
      var g :| g in r && g.foodUID == v;
      var j :| 0 <= j < |r| && r[j] == g;
      if j > 0 {
        assert g == tail[j - 1];
      }
    }
    forall v | v in Returned(tail) ensures v in Returned(r) {
      var g :| g in tail && g.foodUID == v;
      var j :| 0 <= j < |tail| && tail[j] == g;
      assert g == r[j + 1];
    }
    assert r[0] in r;
  }

  /** With each `foodUID` once, there are as many returned `_id`s as groups. */
  lemma {:induction false} ReturnedCount(r: seq<Group>)
    requires forall i, j :: 0 <= i < j < |r| ==> r[i].foodUID != r[j].foodUID
    ensures |Returned(r)| == |r|
  {
    if r != [] {
      var tail := r[1..];
      forall i, j | 0 <= i < j < |tail| ensures tail[i].foodUID != tail[j].foodUID {
        assert tail[i] == r[i + 1] && tail[j] == r[j + 1];
      }
      ReturnedCount(tail);
      ReturnedCons(r);
      forall g | g in tail ensures g.foodUID != r[0].foodUID {
        var j :| 0 <= j < |tail| && tail[j] == g;
        assert g == r[j + 1];
      }
    }
  }

  lemma SubsetOfPair<T>(s: set<T>, a: T, b: T)
    requires s <= {a, b}
    ensures |s| <= 2
  {
    if a in s && b in s {
      assert s == {a, b};
    } else if a in s {
      assert s == {a};
    } else if b in s {
      assert s == {b};
    } else {
      assert s == {};
    }
  }

  /** A ranking of exactly two foods returns both of them, once each. */
  lemma TwoFoodsReturned(docs: seq<Doc>, r: seq<Group>, a: Value, b: Value)
    requires IsTopSelling(docs, r)
    requires GroupIds(docs) == {a, b} && a != b
    ensures Returned(r) == {a, b} && |r| == 2
  {
    ReturnedCount(r);
    forall g | g in r ensures g.foodUID in {a, b} {
      var i :| 0 <= i < |r| && r[i] == g;
    }
    SubsetOfPair(Returned(r), a, b);
  }

  /** Any ranking of two foods that both total 5 is one of the two orders of them. */
  lemma TwoTiedGroups(docs: seq<Doc>, r: seq<Group>, a: Value, b: Value)
    requires IsTopSelling(docs, r)
    requires GroupIds(docs) == {a, b} && a != b
    requires Total(docs, a) == 5 && Total(docs, b) == 5
    ensures r == [Group(a, 5), Group(b, 5)] || r == [Group(b, 5), Group(a, 5)]
  {
    TwoFoodsReturned(docs, r, a, b);
    assert r[0].foodUID != r[1].foodUID;
    assert r[0].foodUID in {a, b} && r[0].totalOrders == 5;
    assert r[1].foodUID in {a, b} && r[1].totalOrders == 5;
    assert r == [r[0], r[1]];
  }

  /**
   * Orders {a, 3}, {b, 5}, {a, 2} of two foods rank both foods with total 5, in
   * either order, since the tie may fall either way.
   */
  lemma TwoFoodsExample(a: Value, b: Value)
    requires a != b
    ensures TopSellingItems(ExampleOrders(a, b)) == [Group(a, 5), Group(b, 5)]
         || TopSellingItems(ExampleOrders(a, b)) == [Group(b, 5), Group(a, 5)]
  {
    ExampleGroups(a, b);
    TwoTiedGroups(ExampleOrders(a, b), TopSellingItems(ExampleOrders(a, b)), a, b);
  }
}

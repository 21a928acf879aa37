/**
 * `GET /transactions`: the stored bank transfers, newest `createdAt` first, grouped by
 * `raw.referenceCode` with the first (newest) document of each group returned as stored.
 */
module Ledger {
  import opened Wrappers
  import Ordering
  import opened ServerModels

  /** The `$sort: { createdAt: -1 }` key: ascending in it is newest first. */
  function NewestFirst(t: Transaction): int { -t.createdAt }

  /** The `$group` key. Documents without `raw.referenceCode` share the key `None` (null). */
  function GroupKey(t: Transaction): Option<string> { t.referenceCode }

  /** The documents after the head whose key differs from the head's. */
  function Rest(s: seq<Transaction>): (r: seq<Transaction>)
    requires s != []
    ensures |r| < |s|
  {
    Ordering.Filter(s[1..], t => GroupKey(t) != GroupKey(s[0]))
  }

  lemma {:induction false} RestMembers(s: seq<Transaction>, t: Transaction)
    requires s != []
    ensures t in Rest(s) <==> t in s[1..] && GroupKey(t) != GroupKey(s[0])
  {
    Ordering.FilterMembers(s[1..], u => GroupKey(u) != GroupKey(s[0]), t);
  }

  /** `$group` with `$first`: the first document of each key. MongoDB leaves the order
      of the groups unspecified and the pipeline sorts nothing after `$group`; listing
      them in the order of first appearance is this model's choice, and no contract
      depends on it. */
  function FirstPerKey(s: seq<Transaction>): (r: seq<Transaction>)
    decreases |s|
  {
    if s == [] then [] else [s[0]] + FirstPerKey(Rest(s))
  }

  /** The aggregation pipeline. */
  function LatestPerReference(ts: seq<Transaction>): seq<Transaction> {
    FirstPerKey(Ordering.SortByKey(ts, NewestFirst))
  }

  /** The response body of a successful request. */
  datatype TransactionsResponse = TransactionsResponse(success: bool, count: nat, data: seq<Transaction>)

  /** The handler's success path: `count` is the length of `data`, never more than the
      number of stored documents, and every returned document is a stored one. */
  function GetTransactions(ts: seq<Transaction>): (r: TransactionsResponse)
    ensures r.success && r.count == |r.data| <= |ts|
  {
    var data := LatestPerReference(ts);
    FirstPerKeyMembers(Ordering.SortByKey(ts, NewestFirst));
    TransactionsResponse(true, |data|, data)
  }

  lemma {:induction false} FirstPerKeyMembers(s: seq<Transaction>)
    ensures |FirstPerKey(s)| <= |s|
    ensures forall k :: 0 <= k < |FirstPerKey(s)| ==> FirstPerKey(s)[k] in s
    decreases |s|
  {
    if s != [] {
      var rest := Rest(s);
      FirstPerKeyMembers(rest);
      var r := FirstPerKey(s);
      var tail := FirstPerKey(rest);
      assert r == [s[0]] + tail;
      forall k | 0 <= k < |r| ensures r[k] in s {
        if k > 0 {
          assert r[k] == tail[k - 1];
          RestMembers(s, r[k]);
        }
      }
    }
  }

  /** No two returned documents share a reference code. */
  lemma {:induction false} FirstPerKeyDistinct(s: seq<Transaction>)
    ensures KeysDistinct(FirstPerKey(s))
    decreases |s|
  {
    if s != [] {
      FirstPerKeyDistinct(Rest(s));
      HeadKeyFresh(s);
      DistinctCons(s[0], FirstPerKey(Rest(s)));
    }
  }

  /** No two documents of `r` share a reference code. */
  predicate KeysDistinct(r: seq<Transaction>) {
    forall i, j :: 0 <= i < j < |r| ==> GroupKey(r[i]) != GroupKey(r[j])
  }

  /** The head's code does not occur among the groups of the rest. */
  lemma {:induction false} HeadKeyFresh(s: seq<Transaction>)
    requires s != []
    ensures forall j :: 0 <= j < |FirstPerKey(Rest(s))| ==> GroupKey(FirstPerKey(Rest(s))[j]) != GroupKey(s[0])
  {
    var tail := FirstPerKey(Rest(s));
    FirstPerKeyMembers(Rest(s));
    forall j | 0 <= j < |tail| ensures GroupKey(tail[j]) != GroupKey(s[0]) {
      RestMembers(s, tail[j]);
    }
  }

  lemma {:induction false} DistinctCons(h: Transaction, tail: seq<Transaction>)
    requires KeysDistinct(tail)
    requires forall j :: 0 <= j < |tail| ==> GroupKey(tail[j]) != GroupKey(h)
    ensures KeysDistinct([h] + tail)
  {
    var r := [h] + tail;
    forall i, j | 0 <= i < j < |r| ensures GroupKey(r[i]) != GroupKey(r[j]) {
      assert r[j] == tail[j - 1];
      if i > 0 {
        assert r[i] == tail[i - 1];
      }
    }
  }

  /** Every reference code among the inputs, null included, has a returned document. */
  lemma {:induction false} FirstPerKeyCovers(s: seq<Transaction>, t: Transaction)
    requires t in s
    ensures exists k :: 0 <= k < |FirstPerKey(s)| && GroupKey(FirstPerKey(s)[k]) == GroupKey(t)
    decreases |s|
  {
    var r := FirstPerKey(s);
    if GroupKey(t) == GroupKey(s[0]) {
      assert GroupKey(r[0]) == GroupKey(t);
    } else {
      var rest := Rest(s);
      assert t in s[1..];
      RestMembers(s, t);
      FirstPerKeyCovers(rest, t);
      var tail := FirstPerKey(rest);
      var k :| 0 <= k < |tail| && GroupKey(tail[k]) == GroupKey(t);
      assert r[k + 1] == tail[k];
    }
  }

  /** On input sorted newest first, each returned document is at least as new as every
      input document with its reference code. */
  lemma {:induction false} FirstPerKeyNewest(s: seq<Transaction>, t: Transaction, k: int)
    requires Ordering.SortedBy(s, NewestFirst)
    requires t in s && 0 <= k < |FirstPerKey(s)| && GroupKey(FirstPerKey(s)[k]) == GroupKey(t)
    ensures t.createdAt <= FirstPerKey(s)[k].createdAt
    decreases |s|
  {
    var r := FirstPerKey(s);
    if k == 0 {
      var i :| 0 <= i < |s| && s[i] == t;
      assert i == 0 || NewestFirst(s[0]) <= NewestFirst(s[i]);
    } else {
      var rest := Rest(s);
      var tail := FirstPerKey(rest);
      assert r[k] == tail[k - 1];
      FirstPerKeyMembers(rest);
      RestMembers(s, tail[k - 1]);
      assert GroupKey(t) != GroupKey(s[0]);
      assert t in s[1..];
      RestMembers(s, t);
      RestSorted(s);
      FirstPerKeyNewest(rest, t, k - 1);
    }
  }

  /** Dropping the head's group keeps the newest-first order. */
  lemma {:induction false} RestSorted(s: seq<Transaction>)
    requires s != [] && Ordering.SortedBy(s, NewestFirst)
    ensures Ordering.SortedBy(Rest(s), NewestFirst)
  {
    Ordering.SortedTail(s, NewestFirst);
    Ordering.FilterKeepsSorted(s[1..], u => GroupKey(u) != GroupKey(s[0]), NewestFirst);
  }

  /** A stored document is in the sorted list the pipeline groups. */
  lemma {:induction false} InSorted(ts: seq<Transaction>, t: Transaction)
    requires t in ts
    ensures t in Ordering.SortByKey(ts, NewestFirst)
  {
    var s := Ordering.SortByKey(ts, NewestFirst);
    assert t in multiset(ts);
  }

  /** The pipeline returns stored documents, no more than there are. */
  lemma {:induction false} LatestMembers(ts: seq<Transaction>)
    ensures |LatestPerReference(ts)| <= |ts|
    ensures forall k :: 0 <= k < |LatestPerReference(ts)| ==> LatestPerReference(ts)[k] in ts
  {
    var s := Ordering.SortByKey(ts, NewestFirst);
    var r := FirstPerKey(s);
    FirstPerKeyMembers(s);
    forall k | 0 <= k < |r| ensures r[k] in ts {
      assert r[k] in multiset(s);
    }
  }

  /** Every stored reference code has a document in the answer. */
  lemma {:induction false} LatestCovers(ts: seq<Transaction>, t: Transaction)
    requires t in ts
    ensures exists k :: 0 <= k < |LatestPerReference(ts)| && GroupKey(LatestPerReference(ts)[k]) == GroupKey(t)
  {
    var s := Ordering.SortByKey(ts, NewestFirst);
    var r := FirstPerKey(s);
    assert LatestPerReference(ts) == r;
    InSorted(ts, t);
    FirstPerKeyCovers(s, t);
    var k :| 0 <= k < |r| && GroupKey(r[k]) == GroupKey(t);
  }

  /** The answer's document of a code is at least as new as every stored one with it. */
  lemma {:induction false} LatestNewest(ts: seq<Transaction>, t: Transaction, k: int)
    requires t in ts && 0 <= k < |LatestPerReference(ts)| && GroupKey(LatestPerReference(ts)[k]) == GroupKey(t)
    ensures t.createdAt <= LatestPerReference(ts)[k].createdAt
  {
    InSorted(ts, t);
    FirstPerKeyNewest(Ordering.SortByKey(ts, NewestFirst), t, k);
  }

  /** No two documents of the answer share a reference code. */
  lemma {:induction false} LatestDistinct(ts: seq<Transaction>)
    ensures forall i, j :: 0 <= i < j < |LatestPerReference(ts)| ==>
      GroupKey(LatestPerReference(ts)[i]) != GroupKey(LatestPerReference(ts)[j])
  {
    FirstPerKeyDistinct(Ordering.SortByKey(ts, NewestFirst));
  }

  /** The pipeline's promises: one document per reference code (null counting as one),
      every code represented, each the newest of its code, each a stored document. */
  lemma {:induction false} LatestPerReferenceSpec(ts: seq<Transaction>)
    ensures var r := LatestPerReference(ts);
      |r| <= |ts| &&
      (forall k :: 0 <= k < |r| ==> r[k] in ts) &&
      (forall i, j :: 0 <= i < j < |r| ==> GroupKey(r[i]) != GroupKey(r[j])) &&
      (forall t :: t in ts ==> exists k :: 0 <= k < |r| && GroupKey(r[k]) == GroupKey(t)) &&
      (forall t, k :: t in ts && 0 <= k < |r| && GroupKey(r[k]) == GroupKey(t) ==>
         t.createdAt <= r[k].createdAt)
  {
    var r := LatestPerReference(ts);
    LatestMembers(ts);
    LatestDistinct(ts);
    forall t | t in ts ensures exists k :: 0 <= k < |r| && GroupKey(r[k]) == GroupKey(t) {
      LatestCovers(ts, t);
    }
    forall t, k | t in ts && 0 <= k < |r| && GroupKey(r[k]) == GroupKey(t)
      ensures t.createdAt <= r[k].createdAt
    {
      LatestNewest(ts, t, k);
    }
  }

  /** Documents without a reference code are returned as one: the newest of them. */
  lemma {:induction false} NullGroupIsOne(ts: seq<Transaction>, t: Transaction)
    requires t in ts && t.referenceCode.None?
    ensures var r := LatestPerReference(ts);
      exists k :: 0 <= k < |r| && r[k].referenceCode.None? && t.createdAt <= r[k].createdAt &&
        forall j :: 0 <= j < |r| && j != k ==> r[j].referenceCode.Some?
  {
    var r := LatestPerReference(ts);
    LatestCovers(ts, t);
    var k :| 0 <= k < |r| && GroupKey(r[k]) == GroupKey(t);
    LatestNewest(ts, t, k);
    FirstPerKeyDistinct(Ordering.SortByKey(ts, NewestFirst));
    assert forall j :: 0 <= j < |r| && j != k ==> GroupKey(r[j]) != GroupKey(r[k]);
  }
}

/**
 * The support page: fetched campaigns and categories get a fallback id, list keys are
 * derived from it, the days left are shown per campaign, and the list is searched, filtered
 * by category and sorted. The sort is `Array.prototype.sort`, which works in place: when no
 * search and no category narrow the list, the array it sorts is the page's own campaign
 * state.
 */
module SupportPage {
  import opened Wrappers
  import opened JsText
  import Ordering
  import CaseDetailScreen

  /** A fetched record: the three fields the fallback id is taken from, and the rest. */
  datatype Entry<T> = Entry(id: Option<string>, uuid: Option<string>, key: Option<string>, body: T)

  /** `item.id || item.uuid || item.key || \`${prefix}-${index}\``. */
  function FallbackId<T>(prefix: string, e: Entry<T>, index: nat): (r: string)
    ensures r != ""
    ensures Truthy(e.id) ==> r == e.id.value
    ensures !Truthy(e.id) && !Truthy(e.uuid) && !Truthy(e.key) ==> r == prefix + "-" + NatToString(index)
  {
    if Truthy(e.id) then e.id.value
    else if Truthy(e.uuid) then e.uuid.value
    else if Truthy(e.key) then e.key.value
    else prefix + "-" + NatToString(index)
  }

  /** `generateSafeKey(prefix, item, index)`. */
  function SafeKey<T>(prefix: string, e: Entry<T>, index: nat): (r: string)
  {
    prefix + "-" + FallbackId(prefix, e, index)
  }

  /** `normalizeData(data, prefix)`: `None` stands for a value that is not an array. */
  function NormalizeData<T>(data: Option<seq<Entry<T>>>, prefix: string): (r: seq<Entry<T>>)
    ensures data.None? ==> r == []
    ensures data.Some? ==> |r| == |data.value|
    ensures data.Some? ==> forall i :: 0 <= i < |r| ==>
      r[i] == data.value[i].(id := Some(FallbackId(prefix, data.value[i], i)))
  {
    match data
    case None => []
    case Some(d) => seq(|d|, i requires 0 <= i < |d| => d[i].(id := Some(FallbackId(prefix, d[i], i))))
  }

  /** Every normalized record has an id, and normalizing again changes nothing. */
  lemma {:induction false} NormalizeIdempotent<T>(data: seq<Entry<T>>, prefix: string)
    ensures forall i :: 0 <= i < |data| ==> Truthy(NormalizeData(Some(data), prefix)[i].id)
    ensures NormalizeData(Some(NormalizeData(Some(data), prefix)), prefix) == NormalizeData(Some(data), prefix)
  {
  }

  /** After normalization a record's key is the prefix and its id. */
  lemma {:induction false} SafeKeyOfNormalized<T>(data: seq<Entry<T>>, prefix: string, i: nat)
    requires i < |data|
    ensures SafeKey(prefix, NormalizeData(Some(data), prefix)[i], i) ==
      prefix + "-" + NormalizeData(Some(data), prefix)[i].id.value
  {
  }

  /** Two records with none of the three fields get different ids. */
  lemma {:induction false} FallbackIdsDistinct<T>(data: seq<Entry<T>>, prefix: string, i: nat, j: nat)
    requires i < j < |data|
    requires !Truthy(data[i].id) && !Truthy(data[i].uuid) && !Truthy(data[i].key)
    requires !Truthy(data[j].id) && !Truthy(data[j].uuid) && !Truthy(data[j].key)
    ensures NormalizeData(Some(data), prefix)[i].id != NormalizeData(Some(data), prefix)[j].id
  {
    var a, b := prefix + "-" + NatToString(i), prefix + "-" + NatToString(j);
    if a == b {
      assert a[|prefix| + 1..] == NatToString(i);
      assert b[|prefix| + 1..] == NatToString(j);
      NatToStringInjective(i, j);
    }
  }

  // ---------------------------------------------------------------------------------------
  // Days left
  // ---------------------------------------------------------------------------------------

  /** An end date: absent (falsy), a text that does not parse, or a time. */
  datatype EndDate = NoDate | BadDate | DateAt(ms: int)

  /** `calculateDaysLeft(endDate)`: whole days rounded up, 0 once the end has passed, and
      0 when there is no date or it does not parse (the NaN fails `diffDays > 0`). */
  function DaysLeft(end: EndDate, now: int): (r: int)
    ensures r >= 0
    ensures !end.DateAt? ==> r == 0
  {
    match end
    case DateAt(ms) =>
      var d := CaseDetailScreen.CeilDays(ms - now);
      if d > 0 then d else 0
    case _ => 0
  }

  /** For a real date the support page and the detail screen show the same count. */
  lemma {:induction false} DaysLeftAgrees(ms: int, now: int, c: CaseDetailScreen.CaseCampaign)
    requires c.endDate == Some(ms)
    ensures DaysLeft(DateAt(ms), now) == CaseDetailScreen.DaysRemaining(Some(c), now).value
    ensures ms - now > 0 ==> (DaysLeft(DateAt(ms), now) - 1) * CaseDetailScreen.DayMs < ms - now
  {
    CaseDetailScreen.DaysRemainingBounds(c, now);
  }

  // ---------------------------------------------------------------------------------------
  // Filtering and sorting
  // ---------------------------------------------------------------------------------------

  /** The campaign fields the list reads. `categoryRef` is `category.id`. Times are
      milliseconds; `createdAt` is None when `created_at` is missing (the schema has no
      default and the create form posts none) or does not parse. */
  datatype CampaignBody = CampaignBody(title: Option<string>, description: Option<string>,
                                       categoryId: Option<string>, categoryRef: Option<string>,
                                       createdAt: Option<int>, currentAmount: Option<int>, endDate: EndDate)

  type Campaign = Entry<CampaignBody>

  predicate MatchesSearch(c: Campaign, query: string) {
    (c.body.title.Some? && Contains(ToLower(c.body.title.value), ToLower(query))) ||
    (c.body.description.Some? && Contains(ToLower(c.body.description.value), ToLower(query)))
  }

  predicate MatchesCategory(c: Campaign, category: string) {
    c.body.categoryId == Some(category) || c.body.categoryRef == Some(category)
  }

  /** The search when the query is not empty, then the category unless it is `all`. */
  function Selected(cs: seq<Campaign>, query: string, category: string): seq<Campaign>
  {
    var bySearch := if query != "" then Ordering.Filter(cs, (c: Campaign) => MatchesSearch(c, query)) else cs;
    if category != "all" then Ordering.Filter(bySearch, (c: Campaign) => MatchesCategory(c, category)) else bySearch
  }

  /** The selection keeps the list's order and holds exactly the campaigns that match the
      search (if any) and the category (if any); with neither, it is the list itself. */
  lemma {:induction false} SelectedSpec(cs: seq<Campaign>, query: string, category: string)
    ensures var r := Selected(cs, query, category);
      Ordering.Subsequence(r, cs) &&
      forall x :: x in r <==>
        x in cs && (query == "" || MatchesSearch(x, query)) && (category == "all" || MatchesCategory(x, category))
    ensures query == "" && category == "all" ==> Selected(cs, query, category) == cs
  {
    var both := (c: Campaign) => (query == "" || MatchesSearch(c, query)) && (category == "all" || MatchesCategory(c, category));
    var search := (c: Campaign) => MatchesSearch(c, query);
    var cat := (c: Campaign) => MatchesCategory(c, category);
    if query != "" && category != "all" {
      Ordering.FilterFilter(cs, search, cat, both);
    } else if query != "" {
      Ordering.SameFilterFull(cs, search, both);
    } else if category != "all" {
      Ordering.SameFilterFull(cs, cat, both);
    } else {
      Ordering.FilterAll(cs, both);
    }
    var r := Ordering.Filter(cs, both);
    forall x ensures x in r <==> x in cs && both(x) {
      if x in r {
        var i :| 0 <= i < |r| && r[i] == x;
      }
      if x in cs && both(x) {
        var i :| 0 <= i < |cs| && cs[i] == x;
      }
    }
  }

  /** The creation time. `new Date(undefined)` is NaN in the source, and a comparator
      that answers NaN leaves the order to the engine; the model sorts such a campaign
      as time 0. */
  function CreatedKey(c: Campaign): int { if c.body.createdAt.Some? then c.body.createdAt.value else 0 }
  function NewestKey(c: Campaign): int { -CreatedKey(c) }
  function FundedKey(c: Campaign): int { -OrNum(c.body.currentAmount, 0) }
  function DeadlineKey(c: Campaign): int { if c.body.endDate.DateAt? then c.body.endDate.ms else 0 }

  /** The `switch (sortBy)`: a stable sort by the chosen order, or no sort for an unknown
      key. */
  function Arranged(cs: seq<Campaign>, sortBy: string): (r: seq<Campaign>)
    ensures multiset(r) == multiset(cs)
    ensures sortBy == "newest" ==> forall i, j :: 0 <= i < j < |r| ==> CreatedKey(r[i]) >= CreatedKey(r[j])
    ensures sortBy == "oldest" ==> forall i, j :: 0 <= i < j < |r| ==> CreatedKey(r[i]) <= CreatedKey(r[j])
    ensures sortBy == "most_funded" ==> forall i, j :: 0 <= i < j < |r| ==>
      OrNum(r[i].body.currentAmount, 0) >= OrNum(r[j].body.currentAmount, 0)
    ensures sortBy == "deadline" ==> Ordering.SortedBy(r, DeadlineKey)
    ensures sortBy !in {"newest", "oldest", "most_funded", "deadline"} ==> r == cs
  {
    if sortBy == "newest" then
      var r := Ordering.SortByKey(cs, NewestKey);
      assert forall i, j :: 0 <= i < j < |r| ==> NewestKey(r[i]) <= NewestKey(r[j]);
      r
    else if sortBy == "oldest" then
      var r := Ordering.SortByKey(cs, CreatedKey);
      assert forall i, j :: 0 <= i < j < |r| ==> CreatedKey(r[i]) <= CreatedKey(r[j]);
      r
    else if sortBy == "most_funded" then
      var r := Ordering.SortByKey(cs, FundedKey);
      assert forall i, j :: 0 <= i < j < |r| ==> FundedKey(r[i]) <= FundedKey(r[j]);
      r
    else if sortBy == "deadline" then Ordering.SortByKey(cs, DeadlineKey)
    else cs
  }

  /** The page's campaign state. */
  class Support {
    var campaigns: seq<Campaign>

    constructor (data: Option<seq<Campaign>>)
      ensures campaigns == NormalizeData(data, "campaign")
    {
      campaigns := NormalizeData(data, "campaign");
    }

    /** `getFilteredCampaigns()`: the selected campaigns in the chosen order. The filters
        build a new array, but with neither of them the sort reorders the state itself. */
    method GetFilteredCampaigns(query: string, category: string, sortBy: string) returns (r: seq<Campaign>)
      modifies this
      ensures r == Arranged(Selected(old(campaigns), query, category), sortBy)
      ensures campaigns == if query == "" && category == "all" then r else old(campaigns)
    {
      var filtered := campaigns;
      var aliased := true;
      if query != "" {
        filtered := Ordering.Filter(filtered, (c: Campaign) => MatchesSearch(c, query));
        aliased := false;
      }
      if category != "all" {
        filtered := Ordering.Filter(filtered, (c: Campaign) => MatchesCategory(c, category));
        aliased := false;
      }
      filtered := Arranged(filtered, sortBy);
      if aliased {
        campaigns := filtered;
      }
      r := filtered;
    }
  }
}

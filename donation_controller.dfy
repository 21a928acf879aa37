/**
 * The donation controller: `createDonation` validates the campaign, stores a completed
 * donation and increments the campaign's totals inside one database transaction, and
 * `getDonationsByCampaign` lists a campaign's completed donations page by page.
 */
module DonationController {
  import opened Wrappers
  import opened JsText
  import Ordering
  import opened ServerModels

  // ---------------------------------------------------------------------------------------
  // createDonation
  // ---------------------------------------------------------------------------------------

  /** The fields read from the request body; `amount` is the text `parseInt` reads. */
  datatype CreateBody = CreateBody(
    campaignId: Option<string>,
    amount: Option<string>,
    donorName: Option<string>,
    donorEmail: Option<string>,
    donorPhone: Option<string>,
    message: Option<string>)

  /** The donor name stored when none is given. */
  const Anonymous: string := "Ẩn danh"

  /** `parseInt(amount)`; a missing amount reads as the text "undefined", which is NaN. */
  function AmountOf(body: CreateBody): Option<int> {
    match body.amount
    case None => None
    case Some(a) => ParseInt(a)
  }

  /** The `$inc` of the campaign's `current_amount` by the amount and of `total_donors` by
      one; a missing field counts from zero. */
  function Increment(c: Campaign, amount: int): (r: Campaign)
    ensures r.currentAmount == Some(c.currentAmount.GetOr(0) + amount)
    ensures r.totalDonors == Some(c.totalDonors.GetOr(0) + 1)
    ensures r.(currentAmount := c.currentAmount, totalDonors := c.totalDonors) == c
  {
    c.(currentAmount := Some(c.currentAmount.GetOr(0) + amount),
       totalDonors := Some(c.totalDonors.GetOr(0) + 1))
  }

  /** The status and the two collections after `createDonation` at clock `now`. A missing
      campaign id finds nothing (404); an id that is not an ObjectId fails to cast, which
      the handler reports as 400; so do an inactive campaign, a NaN amount and a missing
      e-mail or phone, which the donation's schema requires. Every failure aborts the
      transaction, so either both collections change or neither does. */
  function Created(campaigns: seq<Campaign>, donations: seq<Donation>, body: CreateBody, now: int)
    : (r: (int, seq<Campaign>, seq<Donation>))
    ensures r.0 in {201, 400, 404}
    ensures r.0 != 201 ==> r.1 == campaigns && r.2 == donations
    ensures r.0 == 201 ==> |r.1| == |campaigns| && |r.2| == |donations| + 1 && r.2[..|donations|] == donations
  {
    match body.campaignId
    case None => (404, campaigns, donations)
    case Some(id) =>
      if !IsObjectId(id) then (400, campaigns, donations)
      else match FindCampaign(campaigns, ToLower(id))
        case None => (404, campaigns, donations)
        case Some(k) =>
          if campaigns[k].status != Some("active") then (400, campaigns, donations)
          else match AmountOf(body)
            case None => (400, campaigns, donations)
            case Some(amount) =>
              if !Truthy(body.donorEmail) || !Truthy(body.donorPhone) then (400, campaigns, donations)
              else
                (201, campaigns[k := Increment(campaigns[k], amount)], donations + [NewDonation(body, amount, now)])
  }

  /** When the request succeeds and when it does not. */
  lemma {:induction false} CreatedOutcome(campaigns: seq<Campaign>, donations: seq<Donation>, body: CreateBody, now: int)
    ensures var status := Created(campaigns, donations, body, now).0;
      (status == 404 <==> body.campaignId.None? ||
                          (IsObjectId(body.campaignId.value) &&
                           FindCampaign(campaigns, ToLower(body.campaignId.value)).None?)) &&
      (status == 201 <==> body.campaignId.Some? && IsObjectId(body.campaignId.value) &&
                          FindCampaign(campaigns, ToLower(body.campaignId.value)).Some? &&
                          campaigns[FindCampaign(campaigns, ToLower(body.campaignId.value)).value].status == Some("active") &&
                          AmountOf(body).Some? && Truthy(body.donorEmail) && Truthy(body.donorPhone))
  {
  }

  /** The donation `createDonation` stores for `body` at clock `now`. */
  function NewDonation(body: CreateBody, amount: int, now: int): Donation
    requires body.campaignId.Some? && Truthy(body.donorEmail) && Truthy(body.donorPhone)
  {
    Donation(ToLower(body.campaignId.value), amount, body.message,
             if Truthy(body.donorName) then body.donorName.value else Anonymous,
             body.donorEmail.value, body.donorPhone.value, "completed", now)
  }

  /** On success the stored donation is completed, carries the parsed amount and defaults
      the donor name; the campaign the id names (the `k`th) gains exactly that amount and
      one donor, and no other campaign and no other field changes. */
  lemma {:induction false} CreatedEffects(campaigns: seq<Campaign>, donations: seq<Donation>, body: CreateBody, now: int,
                       k: nat, amount: int)
    requires Created(campaigns, donations, body, now).0 == 201
    requires body.campaignId.Some? && FindCampaign(campaigns, ToLower(body.campaignId.value)) == Some(k)
    requires AmountOf(body) == Some(amount)
    ensures |Created(campaigns, donations, body, now).2| == |donations| + 1
    ensures var d := Created(campaigns, donations, body, now).2[|donations|];
      d.status == "completed" && d.amount == amount && d.campaignId == campaigns[k].id &&
      d.donorName == (if Truthy(body.donorName) then body.donorName.value else Anonymous) &&
      d.createdAt == now
    ensures var c := Created(campaigns, donations, body, now).1[k];
      c.currentAmount == Some(campaigns[k].currentAmount.GetOr(0) + amount) &&
      c.totalDonors == Some(campaigns[k].totalDonors.GetOr(0) + 1) &&
      c.id == campaigns[k].id && c.title == campaigns[k].title && c.status == campaigns[k].status &&
      c.goalAmount == campaigns[k].goalAmount
    ensures forall i :: 0 <= i < |campaigns| && i != k ==> Created(campaigns, donations, body, now).1[i] == campaigns[i]
  {
  }

  /** The amount of the donations stored for campaign `id`. */
  function DonatedTo(ds: seq<Donation>, id: string): int {
    Ordering.SumBy(ds, (d: Donation) => if d.campaignId == id then d.amount else 0)
  }

  /** The number of donations stored for campaign `id`. */
  function DonorsOf(ds: seq<Donation>, id: string): int {
    Ordering.SumBy(ds, (d: Donation) => if d.campaignId == id then 1 else 0)
  }

  /** Donations keep every campaign's books: its raised amount minus the donations
      stored for it, and its donor count minus their number, do not change. */
  lemma {:induction false} CreatedKeepsBalance(campaigns: seq<Campaign>, donations: seq<Donation>, body: CreateBody, now: int, i: int)
    requires UniqueCampaignIds(campaigns) && 0 <= i < |campaigns|
    ensures var (_, cs, ds) := Created(campaigns, donations, body, now);
      cs[i].id == campaigns[i].id &&
      cs[i].currentAmount.GetOr(0) - DonatedTo(ds, cs[i].id) ==
        campaigns[i].currentAmount.GetOr(0) - DonatedTo(donations, campaigns[i].id) &&
      cs[i].totalDonors.GetOr(0) - DonorsOf(ds, cs[i].id) ==
        campaigns[i].totalDonors.GetOr(0) - DonorsOf(donations, campaigns[i].id)
  {
    var (status, cs, ds) := Created(campaigns, donations, body, now);
    if status == 201 {
      var k := FindCampaign(campaigns, ToLower(body.campaignId.value)).value;
      CreatedEffects(campaigns, donations, body, now, k, AmountOf(body).value);
      var d := ds[|donations|];
      assert ds == donations + [d];
      assert ds[..|ds| - 1] == donations;
      assert i != k ==> campaigns[i].id != campaigns[k].id;
    }
  }

  /** The handler, one database transaction. */
  method CreateDonation(db: CampaignDb, body: CreateBody, now: int) returns (status: int)
    requires db.Valid()
    modifies db
    ensures db.Valid()
    ensures (status, db.campaigns, db.donations) == Created(old(db.campaigns), old(db.donations), body, now)
  {
    var r := Created(db.campaigns, db.donations, body, now);
    if r.0 == 201 {
      var k := FindCampaign(db.campaigns, ToLower(body.campaignId.value)).value;
      CreatedEffects(db.campaigns, db.donations, body, now, k, AmountOf(body).value);
      assert forall i :: 0 <= i < |r.1| ==> r.1[i].id == db.campaigns[i].id;
    }
    db.campaigns, db.donations := r.1, r.2;
    status := r.0;
  }

  // ---------------------------------------------------------------------------------------
  // getDonationsByCampaign
  // ---------------------------------------------------------------------------------------

  /** The filter `{ campaign_id, status: "completed" }`. */
  function Matching(ds: seq<Donation>, campaignId: string): seq<Donation> {
    Ordering.Filter(ds, (d: Donation) => d.campaignId == campaignId && d.status == "completed")
  }

  /** `.sort({ created_at: -1 })`. */
  function NewestFirst(d: Donation): int { -d.createdAt }

  function Listed(ds: seq<Donation>, campaignId: string): seq<Donation> {
    Ordering.SortByKey(Matching(ds, campaignId), NewestFirst)
  }

  /** `Math.ceil(a / b)` for a non-zero divisor. */
  function CeilDiv(a: nat, b: int): int
    requires b != 0
  {
    if b > 0 then (a + b - 1) / b else -(a / -b)
  }

  /** The quotient rounded up: the least multiple of a positive divisor not below `a`,
      and the mirrored bound for a negative one. */
  lemma {:induction false} CeilDivBounds(a: nat, b: int)
    requires b != 0
    ensures var r := CeilDiv(a, b);
      (b > 0 ==> (r - 1) * b < a <= r * b) &&
      (b < 0 ==> r * b <= a < (r - 1) * b)
  {
  }

  /** The completed donations of a campaign, newest first, every one of them a stored
      donation and each stored one among them. */
  lemma {:induction false} ListedSpec(ds: seq<Donation>, campaignId: string)
    ensures var all := Listed(ds, campaignId);
      (forall i :: 0 <= i < |all| ==>
         all[i] in ds && all[i].campaignId == campaignId && all[i].status == "completed") &&
      (forall i, j :: 0 <= i < j < |all| ==> all[i].createdAt >= all[j].createdAt) &&
      (forall d :: d in ds && d.campaignId == campaignId && d.status == "completed" ==> d in all)
  {
    var all := Listed(ds, campaignId);
    var m := Matching(ds, campaignId);
    forall i | 0 <= i < |all|
      ensures all[i] in ds && all[i].campaignId == campaignId && all[i].status == "completed"
    {
      Ordering.SortByKeyMembers(m, NewestFirst, all[i]);
    }
    forall i, j | 0 <= i < j < |all| ensures all[i].createdAt >= all[j].createdAt {
      assert NewestFirst(all[i]) <= NewestFirst(all[j]);
    }
    forall d | d in ds && d.campaignId == campaignId && d.status == "completed" ensures d in all {
      var i :| 0 <= i < |ds| && ds[i] == d;
      assert d in m;
      Ordering.SortByKeyMembers(m, NewestFirst, d);
    }
  }

  /** The documents left after skipping `skip` and keeping `take` of the rest (all of them
      when `take` is 0). */
  function Window(all: seq<Donation>, skip: nat, take: nat): (r: seq<Donation>)
    ensures take != 0 ==> |r| <= take
    ensures forall i :: 0 <= i < |r| ==> skip + i < |all| && r[i] == all[skip + i]
    ensures skip <= |all| ==> |r| == if take == 0 || skip + take > |all| then |all| - skip else take
  {
    var from := if skip < |all| then skip else |all|;
    var to := if take == 0 || from + take > |all| then |all| else from + take;
    all[from..to]
  }

  datatype PageResponse =
    | ServerError
    | Page(data: seq<Donation>, currentPage: int, totalPages: Option<int>, totalDonations: nat)

  /** The answer for a listing that is already filtered and sorted, with the numeric
      `page` and `limit` query values (1 and 20 when absent). The database skips
      `(page - 1) * limit` documents, refusing a negative skip, and then returns `|limit|`
      of them, all of them for a limit of 0; `total_pages` is null when the limit is 0. */
  function PageOf(all: seq<Donation>, page: Option<int>, limit: Option<int>): (r: PageResponse)
    ensures r.Page? <==> (page.GetOr(1) - 1) * limit.GetOr(20) >= 0
    ensures r.Page? ==> r.totalDonations == |all| && r.currentPage == page.GetOr(1)
    ensures r.Page? ==> (r.totalPages.None? <==> limit.GetOr(20) == 0)
    ensures r.Page? && limit.GetOr(20) != 0 ==> r.totalPages == Some(CeilDiv(|all|, limit.GetOr(20)))
  {
    var p := page.GetOr(1);
    var l := limit.GetOr(20);
    var skip := (p - 1) * l;
    if skip < 0 then ServerError
    else
      Page(Window(all, skip, if l < 0 then -l else l), p,
           if l == 0 then None else Some(CeilDiv(|all|, l)), |all|)
  }

  /** `total_pages` is `Math.ceil(total / limit)`: for a positive limit the fewest pages of
      that size holding every listed donation. */
  lemma {:induction false} TotalPagesBounds(all: seq<Donation>, page: Option<int>, limit: Option<int>)
    requires PageOf(all, page, limit).Page? && limit.GetOr(20) != 0
    ensures var t, l := PageOf(all, page, limit).totalPages.value, limit.GetOr(20);
      (l > 0 ==> (t - 1) * l < |all| <= t * l) && (l < 0 ==> t * l <= |all| < (t - 1) * l)
  {
    CeilDivBounds(|all|, limit.GetOr(20));
  }

  /** The handler. A campaign id that is not an ObjectId fails to cast. */
  function GetDonationsByCampaign(ds: seq<Donation>, campaignId: string, page: Option<int>, limit: Option<int>)
    : (r: PageResponse)
    ensures r.Page? <==> IsObjectId(campaignId) && (page.GetOr(1) - 1) * limit.GetOr(20) >= 0
    ensures r.Page? ==> r.totalDonations == |Matching(ds, ToLower(campaignId))|
    ensures r.Page? ==> r.currentPage == page.GetOr(1)
    ensures r.Page? ==> (r.totalPages.None? <==> limit.GetOr(20) == 0)
    ensures r.Page? && limit.GetOr(20) != 0 ==>
      r.totalPages == Some(CeilDiv(|Matching(ds, ToLower(campaignId))|, limit.GetOr(20)))
  {
    if !IsObjectId(campaignId) then ServerError
    else PageOf(Listed(ds, ToLower(campaignId)), page, limit)
  }

  /** `data` is empty or the part of `all` that starts at `skip`. */
  predicate SliceAt(data: seq<Donation>, all: seq<Donation>, skip: int) {
    data != [] ==> 0 <= skip && skip + |data| <= |all| && data == all[skip..skip + |data|]
  }

  /** A page is the slice of the listing that starts at the skip, at most `|limit|` long. */
  lemma {:induction false} PageSlice(all: seq<Donation>, page: Option<int>, limit: Option<int>)
    requires PageOf(all, page, limit).Page?
    ensures var data := PageOf(all, page, limit).data;
      var l := limit.GetOr(20);
      SliceAt(data, all, (page.GetOr(1) - 1) * l) &&
      (l > 0 ==> |data| <= l) && (l < 0 ==> |data| <= -l)
  {
    var data := PageOf(all, page, limit).data;
    var skip := (page.GetOr(1) - 1) * limit.GetOr(20);
    if data != [] {
      assert skip + |data| - 1 < |all|;
      assert data == all[skip..skip + |data|];
    }
  }

  /** A slice of a campaign's listing holds its completed donations, newest first. */
  lemma {:induction false} SliceOfListed(data: seq<Donation>, ds: seq<Donation>, cid: string, skip: int)
    requires SliceAt(data, Listed(ds, cid), skip)
    ensures forall i :: 0 <= i < |data| ==>
      data[i] in ds && data[i].campaignId == cid && data[i].status == "completed"
    ensures forall i, j :: 0 <= i < j < |data| ==> data[i].createdAt >= data[j].createdAt
  {
    var all := Listed(ds, cid);
    ListedSpec(ds, cid);
    forall i | 0 <= i < |data|
      ensures data[i] in ds && data[i].campaignId == cid && data[i].status == "completed"
    {
      assert data[i] == all[skip + i];
    }
    forall i, j | 0 <= i < j < |data| ensures data[i].createdAt >= data[j].createdAt {
      assert 0 <= skip + i < |all| && data[i] == all[skip + i];
      assert 0 <= skip + j < |all| && data[j] == all[skip + j];
    }
  }

  /** A page holds completed donations of the campaign only, newest first, at most
      `|limit|` of them. */
  lemma {:induction false} PageContents(ds: seq<Donation>, campaignId: string, page: Option<int>, limit: Option<int>)
    requires GetDonationsByCampaign(ds, campaignId, page, limit).Page?
    ensures var data := GetDonationsByCampaign(ds, campaignId, page, limit).data;
      (forall i :: 0 <= i < |data| ==>
         data[i] in ds && data[i].campaignId == ToLower(campaignId) && data[i].status == "completed") &&
      (forall i, j :: 0 <= i < j < |data| ==> data[i].createdAt >= data[j].createdAt) &&
      (limit.GetOr(20) > 0 ==> |data| <= limit.GetOr(20)) &&
      (limit.GetOr(20) < 0 ==> |data| <= -limit.GetOr(20))
  {
    var cid := ToLower(campaignId);
    var all := Listed(ds, cid);
    assert GetDonationsByCampaign(ds, campaignId, page, limit) == PageOf(all, page, limit);
    PageSlice(all, page, limit);
    SliceOfListed(PageOf(all, page, limit).data, ds, cid, (page.GetOr(1) - 1) * limit.GetOr(20));
  }

  /** With a positive limit, the donation at position `j` of the full list is at position
      `j % limit` of page `j / limit + 1`, and that page is within `total_pages`. */
  lemma {:induction false} PageOfIndex(ds: seq<Donation>, campaignId: string, limit: int, j: int)
    requires IsObjectId(campaignId) && limit > 0
    requires 0 <= j < |Listed(ds, ToLower(campaignId))|
    ensures var r := GetDonationsByCampaign(ds, campaignId, Some(j / limit + 1), Some(limit));
      r.Page? && j % limit < |r.data| && r.data[j % limit] == Listed(ds, ToLower(campaignId))[j] &&
      r.totalPages.Some? && j / limit + 1 <= r.totalPages.value
  {
    var all := Listed(ds, ToLower(campaignId));
    assert GetDonationsByCampaign(ds, campaignId, Some(j / limit + 1), Some(limit)) ==
      PageOf(all, Some(j / limit + 1), Some(limit));
    PageAtIndex(all, limit, j);
  }

  /** Position `j` of a listing, on page `j / limit + 1`. */
  lemma {:induction false} PageAtIndex(all: seq<Donation>, limit: int, j: int)
    requires limit > 0 && 0 <= j < |all|
    ensures var r := PageOf(all, Some(j / limit + 1), Some(limit));
      r.Page? && j % limit < |r.data| && r.data[j % limit] == all[j] &&
      r.totalPages.Some? && j / limit + 1 <= r.totalPages.value
  {
    var p := j / limit + 1;
    PageArithmetic(j, limit, |all|);
    var skip := (p - 1) * limit;
    assert PageOf(all, Some(p), Some(limit)) ==
      Page(Window(all, skip, limit), p, Some(CeilDiv(|all|, limit)), |all|);
    var w := Window(all, skip, limit);
    assert skip <= |all|;
    assert j % limit < |w| && w[j % limit] == all[j];
  }

  /** Item `j` of `n` lies `j % limit` into the window of page `j / limit + 1`, and that
      page is not past the last. */
  lemma {:induction false} PageArithmetic(j: nat, limit: int, n: nat)
    requires limit > 0 && j < n
    ensures var skip := (j / limit + 1 - 1) * limit;
      skip >= 0 && skip + j % limit == j && 0 <= j % limit < limit &&
      j / limit + 1 <= CeilDiv(n, limit)
  {
    var q := j / limit;
    var t := CeilDiv(n, limit);
    CeilDivBounds(n, limit);
    assert q * limit <= j;
    assert q * limit < t * limit;
    ProductLess(q, t, limit);
  }

  lemma {:induction false} ProductLess(a: int, b: int, m: int)
    requires m > 0 && a * m < b * m
    ensures a < b
  {
    assert (b - a) * m == b * m - a * m;
  }
}

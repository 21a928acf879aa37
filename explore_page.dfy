/**
 * The mobile explore page: the fetched campaigns are narrowed by the search text, the
 * location and the category that are set, then given their display fields (amounts with
 * defaults, a rounded progress percentage, a location and an image); the fetched
 * organizations get defaults, and the active ones are ranked by the amount they raised.
 * Amounts are whole numbers; `Math.round` is taken on the exact quotient.
 */
module ExplorePage {
  import opened Wrappers
  import opened JsText
  import Ordering

  /** A campaign as the list endpoint returns it; the fields the page reads. */
  datatype Campaign = Campaign(title: Option<string>, description: Option<string>,
                               address: Option<string>, tags: Option<seq<string>>,
                               goalAmount: Option<int>, currentAmount: Option<int>,
                               image: Option<string>)

  /** The campaign with the display fields `processCampaignsData` adds. */
  datatype Card = Card(campaign: Campaign, targetAmount: int, raisedAmount: int,
                       progress: int, location: string, image: string)

  const NoLocation := "Chưa có thông tin"
  const CampaignPlaceholder := "https://via.placeholder.com/300x200"
  const LogoPlaceholder := "https://via.placeholder.com/80x80"

  // ---------------------------------------------------------------------------------------
  // Progress
  // ---------------------------------------------------------------------------------------

  /** `Math.round(raised / target * 100)` for a positive target: halves round up. */
  function RoundedPercent(raised: int, target: int): (p: int)
    requires target > 0
    ensures (2 * p - 1) * target <= 200 * raised < (2 * p + 1) * target
  {
    var q := (200 * raised + target) / (2 * target);
    var m := (200 * raised + target) % (2 * target);
    assert 200 * raised + target == 2 * target * q + m;
    q
  }

  /** `targetAmount > 0 ? Math.round(...) : 0`. */
  function Progress(raised: int, target: int): (p: int)
    ensures target <= 0 ==> p == 0
  {
    if target > 0 then RoundedPercent(raised, target) else 0
  }

  lemma {:induction false} TimesLess(a: int, b: int, t: int)
    requires t > 0 && a * t < b * t
    ensures a < b
  {
    assert (b - a) * t == b * t - a * t;
  }

  /** The percentage stays within 0..100 while the raised amount is within the target. */
  lemma {:induction false} ProgressWithinTarget(raised: int, target: int)
    requires target > 0 && 0 <= raised <= target
    ensures 0 <= Progress(raised, target) <= 100
  {
    var p := RoundedPercent(raised, target);
    assert 0 * target < (2 * p + 1) * target;
    TimesLess(0, 2 * p + 1, target);
    assert (2 * p - 1) * target < 201 * target;
    TimesLess(2 * p - 1, 201, target);
  }

  /** The percentage is not capped: a target that is met shows at least 100. */
  lemma {:induction false} ProgressNotCapped(raised: int, target: int)
    requires target > 0 && raised >= target
    ensures Progress(raised, target) >= 100
  {
    var p := RoundedPercent(raised, target);
    assert 200 * target < (2 * p + 1) * target;
    TimesLess(200, 2 * p + 1, target);
  }

  /** `processCampaignsData` on one campaign. */
  function ProcessCampaign(c: Campaign): (r: Card)
    ensures r.campaign == c && r.location != "" && r.image != ""
  {
    var target := OrNum(c.goalAmount, 0);
    var raised := OrNum(c.currentAmount, 0);
    Card(c, target, raised, Progress(raised, target),
         if Truthy(c.address) then c.address.value else NoLocation,
         if Truthy(c.image) then c.image.value else CampaignPlaceholder)
  }

  /** The display fields: the amounts default to 0, the percentage is the raised share of
      the target rounded to the nearest whole number (0 without a target), and the location
      and image fall back to their placeholders only when missing or empty. */
  lemma {:induction false} ProcessCampaignFields(c: Campaign)
    ensures var r := ProcessCampaign(c);
      (c.goalAmount.Some? ==> r.targetAmount == c.goalAmount.value) &&
      (c.goalAmount.None? ==> r.targetAmount == 0) &&
      (c.currentAmount.Some? ==> r.raisedAmount == c.currentAmount.value) &&
      (c.currentAmount.None? ==> r.raisedAmount == 0) &&
      (r.targetAmount > 0 ==>
        (2 * r.progress - 1) * r.targetAmount <= 200 * r.raisedAmount < (2 * r.progress + 1) * r.targetAmount) &&
      (r.targetAmount <= 0 ==> r.progress == 0) &&
      (r.location == NoLocation <==> !Truthy(c.address) || c.address.value == NoLocation) &&
      (Truthy(c.image) ==> r.image == c.image.value) &&
      (!Truthy(c.image) ==> r.image == CampaignPlaceholder)
  {
  }

  function ProcessCampaigns(cs: seq<Campaign>): (r: seq<Card>)
    ensures |r| == |cs|
    ensures forall i :: 0 <= i < |r| ==> r[i].campaign == cs[i]
  {
    seq(|cs|, i requires 0 <= i < |cs| => ProcessCampaign(cs[i]))
  }

  // ---------------------------------------------------------------------------------------
  // Filters
  // ---------------------------------------------------------------------------------------

  /** The search test: the title, and when it does not match, the description, compared in
      lower case. `None` is the TypeError a missing title or description throws. */
  function SearchMatch(c: Campaign, query: string): (r: Option<bool>)
    ensures r == Some(true) <==>
      c.title.Some? && (Contains(ToLower(c.title.value), ToLower(query)) ||
                        (c.description.Some? && Contains(ToLower(c.description.value), ToLower(query))))
    ensures r.None? <==>
      c.title.None? || (!Contains(ToLower(c.title.value), ToLower(query)) && c.description.None?)
  {
    match c.title
    case None => None
    case Some(t) =>
      if Contains(ToLower(t), ToLower(query)) then Some(true)
      else
        match c.description
        case None => None
        case Some(d) => Some(Contains(ToLower(d), ToLower(query)))
  }

  function Searched(query: string): Campaign -> bool {
    (c: Campaign) => SearchMatch(c, query) == Some(true)
  }

  /** `campaigns.filter(search test)`: the first campaign whose test throws ends it. */
  function SearchFilter(cs: seq<Campaign>, query: string): (r: Option<seq<Campaign>>)
    ensures r.None? <==> exists i :: 0 <= i < |cs| && SearchMatch(cs[i], query).None?
    ensures r.Some? ==> r.value == Ordering.Filter(cs, Searched(query))
  {
    if cs == [] then Some([])
    else
      var rest := SearchFilter(cs[1..], query);
      assert forall i :: 1 <= i < |cs| ==> cs[i] == cs[1..][i - 1];
      match SearchMatch(cs[0], query)
      case None => None
      case Some(b) =>
        match rest
        case None => None
        case Some(tail) => Some(if b then [cs[0]] + tail else tail)
  }

  /** `c.address?.toLowerCase().includes(location.toLowerCase())`. */
  function AtLocation(location: string): Campaign -> bool {
    (c: Campaign) => c.address.Some? && Contains(ToLower(c.address.value), ToLower(location))
  }

  /** `c.tags?.some(tag => tag.toLowerCase().includes(category.toLowerCase()))`. */
  function InCategory(category: string): Campaign -> bool {
    (c: Campaign) => c.tags.Some? && exists i :: 0 <= i < |c.tags.value| && Contains(ToLower(c.tags.value[i]), ToLower(category))
  }

  /** The three filters of `fetchExploreData`, each applied only when its text is set. */
  function Filtered(cs: seq<Campaign>, search: string, location: string, category: string): Option<seq<Campaign>>
  {
    var bySearch := if search != "" then SearchFilter(cs, search) else Some(cs);
    match bySearch
    case None => None
    case Some(a) =>
      var byLocation := if location != "" then Ordering.Filter(a, AtLocation(location)) else a;
      Some(if category != "" then Ordering.Filter(byLocation, InCategory(category)) else byLocation)
  }

  /** The filtered list keeps the fetched order and holds exactly the campaigns that pass
      every test that is set; it fails only when a search test throws. */
  lemma {:induction false} FilteredSpec(cs: seq<Campaign>, search: string, location: string, category: string)
    ensures Filtered(cs, search, location, category).None? <==>
      search != "" && exists i :: 0 <= i < |cs| && SearchMatch(cs[i], search).None?
    ensures var r := Filtered(cs, search, location, category);
      r.Some? ==>
        Ordering.Subsequence(r.value, cs) &&
        forall x :: x in r.value <==>
          x in cs && (search == "" || SearchMatch(x, search) == Some(true)) &&
          (location == "" || AtLocation(location)(x)) && (category == "" || InCategory(category)(x))
  {
    var r := Filtered(cs, search, location, category);
    if r.Some? {
      var a := if search != "" then SearchFilter(cs, search).value else cs;
      var b := if location != "" then Ordering.Filter(a, AtLocation(location)) else a;
      var c := r.value;
      assert Ordering.Subsequence(a, cs) by {
        if search == "" {
          Ordering.FilterAll(cs, (x: Campaign) => true);
        }
      }
      assert Ordering.Subsequence(b, a) by {
        if location == "" {
          Ordering.FilterAll(a, (x: Campaign) => true);
        }
      }
      assert Ordering.Subsequence(c, b) by {
        if category == "" {
          Ordering.FilterAll(b, (x: Campaign) => true);
        }
      }
      Ordering.SubsequenceTransitive(b, a, cs);
      Ordering.SubsequenceTransitive(c, b, cs);
      forall x
        ensures x in c <==>
          x in cs && (search == "" || SearchMatch(x, search) == Some(true)) &&
          (location == "" || AtLocation(location)(x)) && (category == "" || InCategory(category)(x))
      {
        if search != "" {
          Ordering.FilterMembers(cs, Searched(search), x);
        }
        if location != "" {
          Ordering.FilterMembers(a, AtLocation(location), x);
        }
        if category != "" {
          Ordering.FilterMembers(b, InCategory(category), x);
        }
      }
    }
  }

  /** A campaign without a title cannot be searched: any search fails the fetch. */
  lemma {:induction false} MissingTitleFailsSearch(cs: seq<Campaign>, i: nat, search: string, location: string, category: string)
    requires i < |cs| && cs[i].title.None? && search != ""
    ensures Filtered(cs, search, location, category).None?
  {
    FilteredSpec(cs, search, location, category);
  }

  // ---------------------------------------------------------------------------------------
  // Organizations
  // ---------------------------------------------------------------------------------------

  /** An organization as the endpoint returns it; `isActive` is false when absent. */
  datatype Organization = Organization(id: string, name: string, logo: Option<string>,
                                       campaignsCount: Option<int>, totalRaised: Option<int>,
                                       isActive: bool)

  datatype OrgCard = OrgCard(id: string, name: string, logo: string, campaignsCount: int,
                             totalRaised: int, isActive: bool)

  function ProcessOrganization(o: Organization): (r: OrgCard)
    ensures r.id == o.id && r.name == o.name && r.isActive == o.isActive && r.logo != ""
    ensures r.totalRaised == (if o.totalRaised.Some? then o.totalRaised.value else 0)
    ensures r.campaignsCount == (if o.campaignsCount.Some? then o.campaignsCount.value else 0)
    ensures Truthy(o.logo) ==> r.logo == o.logo.value
    ensures !Truthy(o.logo) ==> r.logo == LogoPlaceholder
  {
    OrgCard(o.id, o.name, if Truthy(o.logo) then o.logo.value else LogoPlaceholder,
            OrNum(o.campaignsCount, 0), OrNum(o.totalRaised, 0), o.isActive)
  }

  /** `processOrganizationsData`: `None` is a response without an `organizations` list. */
  function ProcessOrganizations(organizations: Option<seq<Organization>>): (r: seq<OrgCard>)
    ensures organizations.None? ==> r == []
    ensures organizations.Some? ==> |r| == |organizations.value|
    ensures organizations.Some? ==>
      forall i :: 0 <= i < |r| ==> r[i] == ProcessOrganization(organizations.value[i])
  {
    match organizations
    case None => []
    case Some(os) => seq(|os|, i requires 0 <= i < |os| => ProcessOrganization(os[i]))
  }

  function IsActive(o: OrgCard): bool { o.isActive }
  function NegRaised(o: OrgCard): int { -o.totalRaised }

  /** The active organizations, the largest amount raised first; ties keep their order. */
  function Ranked(orgs: seq<OrgCard>): (r: seq<OrgCard>)
    ensures forall i, j :: 0 <= i < j < |r| ==> r[i].totalRaised >= r[j].totalRaised
    ensures multiset(r) == multiset(Ordering.Filter(orgs, IsActive))
  {
    var r := Ordering.SortByKey(Ordering.Filter(orgs, IsActive), NegRaised);
    assert forall i, j :: 0 <= i < j < |r| ==> NegRaised(r[i]) <= NegRaised(r[j]);
    r
  }

  /** The ranking holds every active organization and no other. */
  lemma {:induction false} RankedMembers(orgs: seq<OrgCard>, x: OrgCard)
    ensures x in Ranked(orgs) <==> x in orgs && x.isActive
  {
    var active := Ordering.Filter(orgs, IsActive);
    Ordering.FilterMembers(orgs, IsActive, x);
    Ordering.SortByKeyMembers(active, NegRaised, x);
  }

  // ---------------------------------------------------------------------------------------
  // The page state
  // ---------------------------------------------------------------------------------------

  /** The list endpoint's answer: `ok`, and the body, `None` when it is not an array. */
  datatype CampaignsResponse = CampaignsResponse(ok: bool, body: Option<seq<Campaign>>)

  /** The organization endpoint's answer: `ok`, and the `organizations` field. */
  datatype OrganizationsResponse = OrganizationsResponse(ok: bool, organizations: Option<seq<Organization>>)

  /** The cards `fetchExploreData` shows, or `None` when it throws. */
  function TrendingOf(resp: CampaignsResponse, search: string, location: string, category: string): (r: Option<seq<Card>>)
    ensures !resp.ok ==> r.None?
    ensures resp.ok && search == "" ==> r.Some?
  {
    if !resp.ok then None
    else
      var cs := if resp.body.Some? then resp.body.value else [];
      match Filtered(cs, search, location, category)
      case None => None
      case Some(f) => Some(ProcessCampaigns(f))
  }

  /** The page's lists. */
  datatype Lists = Lists(trendingCampaigns: seq<Card>, topOrganizations: seq<OrgCard>)

  /** `fetchExploreData()` with both answers given: whether the alert is shown, and the
      lists afterwards. A failed campaign request or a search that throws ends it with the
      alert and leaves both lists; otherwise the cards are replaced, and the ranking too when
      the organization request succeeded. */
  function FetchExploreData(st: Lists, search: string, location: string, category: string,
                            campaigns: CampaignsResponse, organizations: OrganizationsResponse): (r: (bool, Lists))
    ensures r.0 <==> TrendingOf(campaigns, search, location, category).None?
    ensures r.0 ==> r.1 == st
    ensures !r.0 ==> r.1.trendingCampaigns == TrendingOf(campaigns, search, location, category).value
    ensures !r.0 && organizations.ok ==>
      r.1.topOrganizations == Ranked(ProcessOrganizations(organizations.organizations))
    ensures !organizations.ok ==> r.1.topOrganizations == st.topOrganizations
  {
    match TrendingOf(campaigns, search, location, category)
    case None => (true, st)
    case Some(cards) =>
      (false, Lists(cards, if organizations.ok then Ranked(ProcessOrganizations(organizations.organizations))
                           else st.topOrganizations))
  }
}

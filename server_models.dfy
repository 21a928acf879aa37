/**
 * The stored documents the server's routes and controllers read and write. Dates are
 * milliseconds since the epoch; an optional field absent from a document is `None`.
 */
module ServerModels {
  import opened Wrappers

  /** A bank transfer notification as stored by the `Transaction` model. `raw` is the
      payment gateway's payload; only the fields the application reads are kept. */
  datatype Transaction = Transaction(
    id: nat,                         // `_id`
    createdAt: int,                  // added by `timestamps: true`
    time: Option<int>,
    referenceCode: Option<string>,   // `raw.referenceCode`
    description: Option<string>,     // `raw.description`
    transferAmount: Option<int>,     // `raw.transferAmount`
    rawAmount: Option<int>,          // `raw.amount`
    transactionDate: Option<int>)    // `raw.transactionDate`

  /** A campaign document, as the controllers use it. */
  datatype Campaign = Campaign(
    id: string,                      // `_id`
    title: string,
    status: Option<string>,
    currentAmount: Option<int>,
    totalDonors: Option<int>,
    goalAmount: Option<int>)

  /** A donation document. */
  datatype Donation = Donation(
    campaignId: string,
    amount: int,
    message: Option<string>,
    donorName: string,
    donorEmail: string,
    donorPhone: string,
    status: string,
    createdAt: int)

  /** An `_id` Mongoose can cast to an ObjectId: 24 hexadecimal digits. */
  predicate IsObjectId(s: string) {
    |s| == 24 && forall i :: 0 <= i < |s| ==>
      '0' <= s[i] <= '9' || 'a' <= s[i] <= 'f' || 'A' <= s[i] <= 'F'
  }

  /** The index of the campaign with `_id` `id`, if any. */
  function FindCampaign(cs: seq<Campaign>, id: string): (r: Option<nat>)
    ensures r.Some? ==> r.value < |cs| && cs[r.value].id == id
    ensures r.None? ==> forall i :: 0 <= i < |cs| ==> cs[i].id != id
  {
    if cs == [] then None
    else if cs[0].id == id then Some(0)
    else match FindCampaign(cs[1..], id)
      case None => None
      case Some(i) => Some(i + 1)
  }

  predicate UniqueCampaignIds(cs: seq<Campaign>) {
    forall i, j :: 0 <= i < j < |cs| ==> cs[i].id != cs[j].id
  }

  /** The `Campaigns` and `Donations` collections, which donations update together. */
  class CampaignDb {
    var campaigns: seq<Campaign>
    var donations: seq<Donation>

    predicate Valid()
      reads this
    {
      UniqueCampaignIds(campaigns)
    }

    constructor (campaigns: seq<Campaign>)
      requires UniqueCampaignIds(campaigns)
      ensures Valid() && this.campaigns == campaigns && donations == []
    {
      this.campaigns := campaigns;
      donations := [];
    }
  }
}

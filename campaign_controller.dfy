/**
 * The campaign controller: list every campaign, fetch one by `_id`, and `donateToCampaign`,
 * which adds the request's `amount` to the campaign document's `current_amount` with
 * JavaScript's `+` and saves the document.
 */
module CampaignController {
  import opened Wrappers
  import opened JsText
  import opened ServerModels

  /** `getCampaigns`: status 200 and every stored campaign, in store order, unfiltered. */
  function GetCampaigns(campaigns: seq<Campaign>): (r: (int, seq<Campaign>))
    ensures r.0 == 200 && |r.1| == |campaigns|
    ensures forall i :: 0 <= i < |campaigns| ==> r.1[i] == campaigns[i]
  {
    (200, campaigns)
  }

  /** `getCampaignById`: an id that is not an ObjectId fails to cast (500), an unknown id
      gives 404, a known one 200 and its document. */
  function GetCampaignById(campaigns: seq<Campaign>, id: string): (r: (int, Option<Campaign>))
    ensures r.0 in {200, 404, 500}
    ensures r.0 == 200 <==> r.1.Some?
    ensures r.0 == 500 <==> !IsObjectId(id)
    ensures r.0 == 404 <==> IsObjectId(id) && forall i :: 0 <= i < |campaigns| ==> campaigns[i].id != ToLower(id)
    ensures r.1.Some? ==> r.1.value in campaigns && r.1.value.id == ToLower(id)
  {
    if !IsObjectId(id) then (500, None)
    else match FindCampaign(campaigns, ToLower(id))
      case None => (404, None)
      case Some(k) => (200, Some(campaigns[k]))
  }

  // ---------------------------------------------------------------------------------------
  // donateToCampaign
  // ---------------------------------------------------------------------------------------

  /** The JSON value of the body's `amount`. */
  datatype BodyAmount = Missing | Null | Num(n: int) | Text(t: string)

  /** `current_amount + amount` as JavaScript evaluates it, then cast back to a Number by
      the schema (`None` is NaN, which makes `save` fail). An absent `current_amount` is
      `undefined`, and `undefined` plus anything is NaN or a non-numeric text; `null` adds
      nothing; a text is appended to the number's decimal rendering. Only digit texts are
      modelled: for any other text the `None` stands for a case outside the model, not for
      the source's answer (`100 + "1e3"` is `"1001e3"`, which the schema casts to 1001000
      and saves). */
  function PlusAmount(current: Option<int>, amount: BodyAmount): (r: Option<int>)
    ensures current.None? || amount.Missing? ==> r.None?
    ensures current.Some? && amount.Num? ==> r == Some(current.value + amount.n)
    ensures current.Some? && amount.Null? ==> r == current
  {
    match (current, amount)
    case (None, _) => None
    case (Some(_), Missing) => None
    case (Some(c), Null) => Some(c)
    case (Some(c), Num(n)) => Some(c + n)
    case (Some(c), Text(t)) =>
      if AllDigits(t) then
        var size: nat := if c < 0 then -c else c;
        var magnitude: int := DigitsValue(NatToString(size) + t);
        var value: int := if c < 0 then -magnitude else magnitude;
        Some(value)
      else None
  }

  /** The status and the campaigns after `donateToCampaign`: 500 for an id that is not an
      ObjectId and for a sum that is not a number, 404 for an unknown id, otherwise 200
      with the new `current_amount` saved. */
  function Donated(campaigns: seq<Campaign>, id: string, amount: BodyAmount): (r: (int, seq<Campaign>))
    ensures r.0 in {200, 404, 500}
    ensures r.0 != 200 ==> r.1 == campaigns
    ensures |r.1| == |campaigns|
  {
    if !IsObjectId(id) then (500, campaigns)
    else match FindCampaign(campaigns, ToLower(id))
      case None => (404, campaigns)
      case Some(k) =>
        match PlusAmount(campaigns[k].currentAmount, amount)
        case None => (500, campaigns)
        case Some(v) => (200, campaigns[k := campaigns[k].(currentAmount := Some(v))])
  }

  /** An unknown id answers 404 and changes nothing. */
  lemma {:induction false} DonatedUnknown(campaigns: seq<Campaign>, id: string, amount: BodyAmount)
    requires IsObjectId(id) && forall i :: 0 <= i < |campaigns| ==> campaigns[i].id != ToLower(id)
    ensures Donated(campaigns, id, amount) == (404, campaigns)
  {
  }

  /** On success only the `current_amount` of the campaign with the id changes: the amount
      is not validated (a negative one lowers the total) and `total_donors` is not touched. */
  lemma {:induction false} DonatedEffects(campaigns: seq<Campaign>, id: string, amount: BodyAmount, k: nat)
    requires IsObjectId(id) && FindCampaign(campaigns, ToLower(id)) == Some(k)
    requires campaigns[k].currentAmount.Some? && amount.Num?
    ensures Donated(campaigns, id, amount).0 == 200
    ensures var c := Donated(campaigns, id, amount).1[k];
      c.currentAmount == Some(campaigns[k].currentAmount.value + amount.n) &&
      c.(currentAmount := campaigns[k].currentAmount) == campaigns[k]
    ensures Donated(campaigns, id, amount).1 == campaigns[k := Donated(campaigns, id, amount).1[k]]
  {
    var v := campaigns[k].currentAmount.value + amount.n;
    assert PlusAmount(campaigns[k].currentAmount, amount) == Some(v);
    DonatedAt(campaigns, id, amount, k, v);
  }

  /** The success case of `Donated`, unfolded. */
  lemma {:induction false} DonatedAt(campaigns: seq<Campaign>, id: string, amount: BodyAmount, k: nat, v: int)
    requires IsObjectId(id) && FindCampaign(campaigns, ToLower(id)) == Some(k)
    requires PlusAmount(campaigns[k].currentAmount, amount) == Some(v)
    ensures Donated(campaigns, id, amount) == (200, campaigns[k := campaigns[k].(currentAmount := Some(v))])
    ensures Donated(campaigns, id, amount).1[k].currentAmount == Some(v)
  {
  }

  /** As written: an amount sent as a JSON string of digits is appended to the decimal
      rendering of a non-negative `current_amount` rather than added to it. */
  lemma {:induction false} TextAmountAppends(campaigns: seq<Campaign>, id: string, t: string, k: nat)
    requires IsObjectId(id) && FindCampaign(campaigns, ToLower(id)) == Some(k)
    requires campaigns[k].currentAmount.Some? && campaigns[k].currentAmount.value >= 0
    requires AllDigits(t)
    ensures var c := campaigns[k].currentAmount.value;
      Donated(campaigns, id, Text(t)).0 == 200 &&
      Donated(campaigns, id, Text(t)).1[k].currentAmount == Some(c * Pow10(|t|) + DigitsValue(t))
  {
    var c := campaigns[k].currentAmount.value;
    var v := c * Pow10(|t|) + DigitsValue(t);
    assert campaigns[k].currentAmount == Some(c);
    PlusTextAppends(c, t);
    DonatedAt(campaigns, id, Text(t), k, v);
  }

  lemma {:induction false} PlusTextAppends(c: nat, t: string)
    requires AllDigits(t)
    ensures PlusAmount(Some(c), Text(t)) == Some(c * Pow10(|t|) + DigitsValue(t))
  {
    var s := NatToString(c);
    DigitsValueConcat(s, t);
    NatToStringRoundTrip(c);
    assert DigitsValue(s + t) == c * Pow10(|t|) + DigitsValue(t);
  }

  /** For example a campaign at 100 receiving the text "50" is saved at 10050, not 150. */
  lemma {:induction false} TextAmountExample(campaigns: seq<Campaign>, id: string, k: nat)
    requires IsObjectId(id) && FindCampaign(campaigns, ToLower(id)) == Some(k)
    requires campaigns[k].currentAmount == Some(100)
    ensures Donated(campaigns, id, Text("50")).1[k].currentAmount == Some(10050)
    ensures Donated(campaigns, id, Num(50)).1[k].currentAmount == Some(150)
  {
    TextAmountAppends(campaigns, id, "50", k);
    assert DigitsValue("50") == 50 by {
      assert "50"[..1] == "5";
    }
  }

  /** The intended addition: a text amount is read as a number first, so the same
      donation adds the same amount whether it arrives as a number or as digits. */
  function PlusAmountAsNumber(current: Option<int>, amount: BodyAmount): (r: Option<int>)
    ensures amount.Text? && AllDigits(amount.t) && current.Some? ==>
      r == Some(current.value + DigitsValue(amount.t))
    ensures !amount.Text? ==> r == PlusAmount(current, amount)
  {
    match amount
    case Text(t) =>
      if AllDigits(t) && current.Some? then Some(current.value + DigitsValue(t)) else None
    case _ => PlusAmount(current, amount)
  }

  function DonatedAsNumber(campaigns: seq<Campaign>, id: string, amount: BodyAmount): (r: (int, seq<Campaign>))
    ensures r.0 in {200, 404, 500}
    ensures r.0 != 200 ==> r.1 == campaigns
    ensures |r.1| == |campaigns|
  {
    if !IsObjectId(id) then (500, campaigns)
    else match FindCampaign(campaigns, ToLower(id))
      case None => (404, campaigns)
      case Some(k) =>
        match PlusAmountAsNumber(campaigns[k].currentAmount, amount)
        case None => (500, campaigns)
        case Some(v) => (200, campaigns[k := campaigns[k].(currentAmount := Some(v))])
  }

  /** With the intended addition, the digits of a number and the number itself donate the
      same amount. */
  lemma {:induction false} DigitsDonateLikeNumbers(campaigns: seq<Campaign>, id: string, n: nat)
    ensures DonatedAsNumber(campaigns, id, Text(NatToString(n))) == DonatedAsNumber(campaigns, id, Num(n))
  {
    NatToStringRoundTrip(n);
  }

  /** The handler: `findById`, `+=` on the document, `save`. */
  method DonateToCampaign(db: CampaignDb, id: string, amount: BodyAmount) returns (status: int)
    requires db.Valid()
    modifies db
    ensures db.Valid()
    ensures (status, db.campaigns) == Donated(old(db.campaigns), id, amount)
    ensures db.donations == old(db.donations)
  {
    var r := Donated(db.campaigns, id, amount);
    assert forall i :: 0 <= i < |r.1| ==> r.1[i].id == db.campaigns[i].id;
    db.campaigns := r.1;
    status := r.0;
  }
}

/**
 * The donation-intent routes: `POST /initiate-donation` registers a donation id once
 * (find, then insert if absent), and `GET /check-donation/:donationId` derives the
 * status of an id from the stored bank transfers: 'confirmed' when some transfer's
 * description matches the id case-insensitively, 'pending' otherwise. Nothing stores a
 * confirmation.
 */
module InitDonation {
  import opened Wrappers
  import opened JsText
  import opened ServerModels

  /** A `DonationInit` document. */
  datatype DonationInit = DonationInit(donationId: string, campaignId: string, amount: Option<int>, createdAt: int)

  /** A body field that the schema casts when the document is saved: absent or null, a
      value that casts (a number, or a date as its millisecond timestamp), or one that
      does not cast (`"abc"` for `amount: Number`, a text that is no date for
      `createdAt: Date`). `truthy` is the JavaScript truthiness of the value as posted,
      before the cast: the text `"1970-01-01T00:00:00Z"` casts to 0 and is truthy. */
  datatype CastField = Unset | Casts(value: int, truthy: bool) | Uncastable

  /** The fields read from the request body. */
  datatype InitBody = InitBody(donationId: Option<string>, campaignId: Option<string>,
                               amount: CastField, createdAt: CastField)

  /** JavaScript truthiness of a posted field: an uncastable value is a non-empty text or
      an object, so it is truthy; a castable one is as it was posted. */
  predicate TruthyField(f: CastField) {
    f.Uncastable? || (f.Casts? && f.truthy)
  }

  /** The stored `amount`: the cast number, or no value. */
  function StoredAmount(f: CastField): (r: Option<int>)
    requires !f.Uncastable?
    ensures r.Some? <==> f.Casts?
    ensures f.Casts? ==> r.value == f.value
  {
    if f.Casts? then Some(f.value) else None
  }

  /** `save()` succeeds on the new document exactly when `amount` casts, and
      `createdAt || new Date()` casts; a falsy `createdAt` is replaced by the clock. */
  predicate SaveCasts(body: InitBody) {
    !body.amount.Uncastable? && !body.createdAt.Uncastable?
  }

  predicate HasId(records: seq<DonationInit>, id: string) {
    exists i :: 0 <= i < |records| && records[i].donationId == id
  }

  /** The unique index on `donationId`. */
  predicate UniqueIds(records: seq<DonationInit>) {
    forall i, j :: 0 <= i < j < |records| ==> records[i].donationId != records[j].donationId
  }

  /** The status and the new collection after `POST /initiate-donation` at clock `now`:
      400 without a truthy donation id and campaign id, 200 when the id is already
      registered, 500 when the new document fails its casts on `save()`, otherwise 201
      with one new document whose `createdAt` defaults to now. */
  function Initiated(records: seq<DonationInit>, body: InitBody, now: int): (r: (int, seq<DonationInit>))
    ensures r.0 in {400, 200, 201, 500}
    ensures r.0 != 201 ==> r.1 == records
    ensures r.0 == 201 <==> Truthy(body.donationId) && Truthy(body.campaignId) &&
                            !HasId(records, body.donationId.value) && SaveCasts(body)
    ensures r.0 == 500 <==> Truthy(body.donationId) && Truthy(body.campaignId) &&
                            !HasId(records, body.donationId.value) && !SaveCasts(body)
    ensures r.0 == 201 ==> |r.1| == |records| + 1 && r.1[..|records|] == records
  {
    if !Truthy(body.donationId) || !Truthy(body.campaignId) then (400, records)
    else if HasId(records, body.donationId.value) then (200, records)
    else if !SaveCasts(body) then (500, records)
    else
      var created := DonationInit(body.donationId.value, body.campaignId.value, StoredAmount(body.amount),
                                  if TruthyField(body.createdAt) then body.createdAt.value else now);
      (201, records + [created])
  }

  /** The 201 document carries the request's fields, with the clock as the default date. */
  lemma {:induction false} InitiatedRecord(records: seq<DonationInit>, body: InitBody, now: int)
    requires Initiated(records, body, now).0 == 201
    ensures var d := Initiated(records, body, now).1[|records|];
      d.donationId == body.donationId.value && d.campaignId == body.campaignId.value &&
      (d.amount.Some? <==> body.amount.Casts?) &&
      (body.amount.Casts? ==> d.amount.value == body.amount.value) &&
      d.createdAt == (if TruthyField(body.createdAt) then body.createdAt.value else now)
  {
  }

  /** A date text for the epoch is truthy, so `createdAt || new Date()` keeps it and
      the record is dated 0 rather than now. */
  lemma {:induction false} EpochDateKept(records: seq<DonationInit>, id: string, campaign: string,
                                         amount: CastField, now: int)
    requires id != "" && campaign != "" && !HasId(records, id) && !amount.Uncastable?
    ensures var r := Initiated(records, InitBody(Some(id), Some(campaign), amount, Casts(0, true)), now);
      r.0 == 201 && r.1[|records|].createdAt == 0
  {
  }

  /** An amount that does not cast (`"abc"` against `amount: Number`) makes `save()`
      fail: the answer is 500 and nothing is stored. */
  lemma {:induction false} UncastableAmountFails(records: seq<DonationInit>, id: string, campaign: string,
                                                 createdAt: CastField, now: int)
    requires id != "" && campaign != "" && !HasId(records, id)
    ensures Initiated(records, InitBody(Some(id), Some(campaign), Uncastable, createdAt), now) == (500, records)
  {
  }

  /** The store never holds two documents with one donation id. */
  lemma {:induction false} InitiatedKeepsUnique(records: seq<DonationInit>, body: InitBody, now: int)
    requires UniqueIds(records)
    ensures UniqueIds(Initiated(records, body, now).1)
  {
    var r := Initiated(records, body, now);
    if r.0 == 201 {
      forall i, j | 0 <= i < j < |r.1| ensures r.1[i].donationId != r.1[j].donationId {
        if j == |records| {
          assert r.1[i] == records[i];
        }
      }
    }
  }

  /** Posting the same body twice registers it at most once: once the first call has
      stored it, the second answers 200 and changes nothing, whatever its clock. */
  lemma {:induction false} InitiateTwice(records: seq<DonationInit>, body: InitBody, now: int, later: int)
    requires Truthy(body.donationId) && Truthy(body.campaignId)
    ensures var first := Initiated(records, body, now);
      first.0 != 500 ==> Initiated(first.1, body, later) == (200, first.1)
    ensures var first := Initiated(records, body, now);
      first.0 == 500 ==> Initiated(first.1, body, later) == first
  {
    var once := Initiated(records, body, now).1;
    if !HasId(records, body.donationId.value) && SaveCasts(body) {
      assert once[|records|].donationId == body.donationId.value;
    }
  }

  /** A later request for a registered id with other campaign, amount or date fields
      leaves the stored document as it was, even when those fields would not cast. */
  lemma {:induction false} ExistingIdUnchanged(records: seq<DonationInit>, body: InitBody, now: int, i: int)
    requires Truthy(body.donationId) && Truthy(body.campaignId)
    requires 0 <= i < |records| && records[i].donationId == body.donationId.value
    ensures Initiated(records, body, now).0 == 200
    ensures Initiated(records, body, now).1[i] == records[i]
  {
  }

  /** The `DonationInit` collection. */
  class DonationInitStore {
    var records: seq<DonationInit>

    predicate Valid()
      reads this
    {
      UniqueIds(records)
    }

    constructor ()
      ensures Valid() && records == []
    {
      records := [];
    }

    /** The route handler: `findOne` by donation id, then `save` when absent, which
        fails with 500 on a field that does not cast. */
    method Initiate(body: InitBody, now: int) returns (status: int)
      requires Valid()
      modifies this
      ensures Valid()
      ensures (status, records) == Initiated(old(records), body, now)
    {
      if !Truthy(body.donationId) || !Truthy(body.campaignId) {
        return 400;
      }
      var id := body.donationId.value;
      var i := 0;
      while i < |records|
        invariant 0 <= i <= |records|
        invariant forall k :: 0 <= k < i ==> records[k].donationId != id
      {
        if records[i].donationId == id {
          return 200;
        }
        i := i + 1;
      }
      if !SaveCasts(body) {
        return 500;
      }
      var created := DonationInit(id, body.campaignId.value, StoredAmount(body.amount),
                                  if TruthyField(body.createdAt) then body.createdAt.value else now);
      InitiatedKeepsUnique(records, body, now);
      records := records + [created];
      status := 201;
    }
  }

  // ---------------------------------------------------------------------------------------
  // check-donation
  // ---------------------------------------------------------------------------------------

  /** Ids whose characters the regular expression built from them matches literally. */
  predicate IsPlainPattern(s: string) {
    forall i :: 0 <= i < |s| ==> IsAsciiAlnum(s[i]) || s[i] == '-' || s[i] == '_'
  }

  /** Case folding under the database's case-insensitive regular expression match: ASCII
      letters fold to lower case, and the Kelvin sign and the long s fold to 'k' and 's'. */
  function Fold(c: char): (r: char)
    ensures IsAsciiAlnum(c) || c == '-' || c == '_' ==> IsAsciiAlnum(r) || r == c
  {
    if IsAsciiUpper(c) then (c as int + 32) as char
    else if c == '\U{212A}' then 'k'
    else if c == '\U{017F}' then 's'
    else c
  }

  function FoldString(s: string): (r: string)
    ensures |r| == |s| && forall i :: 0 <= i < |s| ==> r[i] == Fold(s[i])
  {
    seq(|s|, i requires 0 <= i < |s| => Fold(s[i]))
  }

  /** The description matches `new RegExp(id, 'i')`: the id occurs in it up to case. */
  predicate MatchesId(description: string, id: string) {
    Contains(FoldString(description), FoldString(id))
  }

  datatype CheckStatus = InvalidRequest | Confirmed | Pending

  /** Some stored transfer carries a description that matches the id. */
  predicate AnyMatches(id: string, txs: seq<Transaction>) {
    exists i :: 0 <= i < |txs| && txs[i].description.Some? && MatchesId(txs[i].description.value, id)
  }

  /** The handler: 400 for an empty id, then 'confirmed' or 'pending'. It reads only the
      transfers, never the `DonationInit` store. */
  function CheckDonation(donationId: string, txs: seq<Transaction>): (r: CheckStatus)
    requires IsPlainPattern(donationId)
    ensures r == InvalidRequest <==> donationId == ""
    ensures donationId != "" ==> (r == Confirmed <==> AnyMatches(donationId, txs))
  {
    if donationId == "" then InvalidRequest
    else if AnyMatches(donationId, txs) then Confirmed
    else Pending
  }

  /** A transfer whose description holds the id verbatim confirms it, whether or not the
      id was ever initiated. */
  lemma {:induction false} VerbatimConfirms(donationId: string, txs: seq<Transaction>, i: int, before: string, after: string)
    requires IsPlainPattern(donationId) && donationId != ""
    requires 0 <= i < |txs| && txs[i].description == Some(before + donationId + after)
    ensures CheckDonation(donationId, txs) == Confirmed
  {
    VerbatimMatches(donationId, txs, i, before, after);
  }

  lemma {:induction false} VerbatimMatches(id: string, txs: seq<Transaction>, i: int, before: string, after: string)
    requires 0 <= i < |txs| && txs[i].description == Some(before + id + after)
    ensures AnyMatches(id, txs)
  {
    var d := before + id + after;
    assert FoldString(d)[|before|..|before| + |id|] == FoldString(id);
    assert OccursAt(FoldString(d), FoldString(id), |before|);
  }

  /** Upper-casing the ASCII letters of the id does not change the answer. */
  lemma {:induction false} CheckIgnoresCase(donationId: string, txs: seq<Transaction>)
    requires IsPlainPattern(donationId)
    ensures IsPlainPattern(AsciiUpper(donationId))
    ensures CheckDonation(AsciiUpper(donationId), txs) == CheckDonation(donationId, txs)
  {
    var u := AsciiUpper(donationId);
    assert FoldString(u) == FoldString(donationId) by {
      forall k | 0 <= k < |u| ensures Fold(u[k]) == Fold(donationId[k]) {
        var c := donationId[k];
        if IsAsciiLower(c) {
          assert u[k] as int == c as int - 32;
        }
      }
    }
    forall i | 0 <= i < |txs| && txs[i].description.Some?
      ensures MatchesId(txs[i].description.value, u) == MatchesId(txs[i].description.value, donationId)
    {
    }
  }

  /** More transfers can turn 'pending' into 'confirmed', never the reverse. */
  lemma {:induction false} CheckMonotone(donationId: string, txs: seq<Transaction>, more: seq<Transaction>)
    requires IsPlainPattern(donationId)
    requires forall t :: t in txs ==> t in more
    ensures CheckDonation(donationId, txs) == Confirmed ==> CheckDonation(donationId, more) == Confirmed
  {
    if donationId != "" && AnyMatches(donationId, txs) {
      var i :| 0 <= i < |txs| && txs[i].description.Some? && MatchesId(txs[i].description.value, donationId);
      assert txs[i] in more;
      var j :| 0 <= j < |more| && more[j] == txs[i];
    }
  }

  /** A character of the id that is not a letter must appear as itself: an id with a '-'
      stays pending while no description contains one. */
  lemma {:induction false} HyphenNeeded(donationId: string, txs: seq<Transaction>)
    requires IsPlainPattern(donationId) && HasChar(donationId, '-')
    requires forall i :: 0 <= i < |txs| && txs[i].description.Some? ==> !HasChar(txs[i].description.value, '-')
    ensures CheckDonation(donationId, txs) == Pending
  {

  }
}

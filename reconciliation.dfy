/**
 * How a transfer made from the donation screen's QR code is matched back to its donation.
 * The QR carries the sanitised id (`QrMemo`), which for a uuid has no hyphens and for a
 * fallback id has no underscores; the status check searches the descriptions for the id
 * as registered, hyphens and underscores included. A description that carries only the
 * memo therefore never confirms. `CheckDonationWithMemo` is the check that also accepts
 * the memo.
 */
module Reconciliation {
  import opened Wrappers
  import opened JsText
  import opened ServerModels
  import opened InitDonation
  import DonationScreen

  /** A uuid is a plain pattern: hex digits and hyphens. */
  lemma {:induction false} UuidIsPlain(id: string)
    requires DonationScreen.IsUuidV4(id)
    ensures IsPlainPattern(id) && HasChar(id, '-')
  {
    assert id[8] == '-';
  }

  /** As the routes are written: when every description the bank recorded is the QR memo
      of a uuid id, the check of that id answers 'pending', however many transfers
      there are. */
  lemma {:induction false} MemoOnlyNeverConfirms(id: string, txs: seq<Transaction>)
    requires DonationScreen.IsUuidV4(id)
    requires forall i :: 0 <= i < |txs| && txs[i].description.Some? ==>
      txs[i].description.value == DonationScreen.QrMemo(id)
    ensures IsPlainPattern(id) && CheckDonation(id, txs) == Pending
  {
    UuidIsPlain(id);
    DonationScreen.UuidMemo(id);
    HyphenNeeded(id, txs);
  }

  /** The memo a plain id is shown under in the QR code: its letters and digits. */
  lemma {:induction false} MemoOfPlainId(id: string)
    requires IsPlainPattern(id)
    ensures IsPlainPattern(DonationScreen.QrMemo(id))
  {
    DonationScreen.RemoveTonesOutput(id);
    DonationScreen.QrMemoIsSanitised(id);
    var s := DonationScreen.Strip(id);
    PlainStrip(id);
    DonationScreen.StripKept(id);
    TrimOfTrimmedAlnum(s);
  }

  /** Stripping a plain id keeps exactly its letters and digits. */
  lemma {:induction false} PlainStrip(id: string)
    requires IsPlainPattern(id)
    ensures forall i :: 0 <= i < |DonationScreen.Strip(id)| ==> IsAsciiAlnum(DonationScreen.Strip(id)[i])
  {
    if id != [] {
      PlainStrip(id[1..]);
      var head := DonationScreen.Project(id[0]);
      var tail := DonationScreen.Strip(id[1..]);
      assert id[0] == '-' || id[0] == '_' ==> head == [];
      assert IsAsciiAlnum(id[0]) ==> head == [id[0]];
      assert forall i :: |head| <= i < |head + tail| ==> (head + tail)[i] == tail[i - |head|];
    }
  }

  lemma {:induction false} TrimOfTrimmedAlnum(s: string)
    requires forall i :: 0 <= i < |s| ==> IsAsciiAlnum(s[i])
    ensures Trim(s) == s
  {
    TrimOfTrimmed(s);
  }

  /** The intended check: a description confirms when it matches the registered id or
      the memo the QR code carried. */
  function CheckDonationWithMemo(donationId: string, txs: seq<Transaction>): (r: CheckStatus)
    requires IsPlainPattern(donationId)
    ensures r == InvalidRequest <==> donationId == ""
    ensures CheckDonation(donationId, txs) == Confirmed ==> r == Confirmed
  {
    if donationId == "" then InvalidRequest
    else if AnyMatches(donationId, txs) || AnyMatches(DonationScreen.QrMemo(donationId), txs) then Confirmed
    else Pending
  }

  /** With the intended check, a transfer whose description holds the value the QR's
      `des` parameter decodes to (`DonationScreen.QrUrlParameters`) confirms the
      donation, uuid or not. */
  lemma {:induction false} QrTransferConfirms(donationId: string, txs: seq<Transaction>, i: int, before: string, after: string)
    requires IsPlainPattern(donationId) && donationId != ""
    requires 0 <= i < |txs|
    requires txs[i].description == Some(before + DonationScreen.RemoveVietnameseTones(donationId) + after)
    ensures CheckDonationWithMemo(donationId, txs) == Confirmed
  {
    DonationScreen.QrMemoIsSanitised(donationId);
    VerbatimMatches(DonationScreen.QrMemo(donationId), txs, i, before, after);
  }
}

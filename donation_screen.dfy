/**
 * The donation screen of the mobile application: the bank memo derived from a donation id,
 * the Sepay QR image URL that carries it, the id allocation, and the screen state updated
 * around the `/initiate-donation` request.
 */
module DonationScreen {
  import opened Wrappers
  import opened JsText
  import NfdTable
  import UriCodec

  // ---------------------------------------------------------------------------------------
  // removeVietnameseTones
  // ---------------------------------------------------------------------------------------

  /** What `normalize('NFD')`, the removal of U+0300..U+036F, the replacement of đ/Đ and the
      removal of every character outside `[a-zA-Z0-9\s]` leave of one input character.
      Canonical reordering only moves combining marks, and none of the kept characters is
      one, so the pipeline acts on each input character separately. U+2000 and U+2001
      decompose canonically to U+2002 and U+2003, which are white space. */
  function Project(c: char): (r: string)
    ensures |r| <= 1
    ensures forall i :: 0 <= i < |r| ==> IsKept(r[i])
  {
    if IsAsciiAlnum(c) then [c]
    else if c == 'đ' then "d"
    else if c == 'Đ' then "D"
    else if c == '\U{2000}' then ['\U{2002}']
    else if c == '\U{2001}' then ['\U{2003}']
    else if IsSpace(c) then [c]
    else match NfdTable.BaseLetter(c)
      case Some(b) => [b]
      case None => []
  }

  /** The characters that can survive the pipeline. */
  predicate IsKept(c: char) {
    IsAsciiAlnum(c) || (IsSpace(c) && c != '\U{2000}' && c != '\U{2001}')
  }

  /** `f` applied to each character, the results joined in order. */
  function FlatMap(s: string, f: char -> string): string {
    if s == [] then [] else f(s[0]) + FlatMap(s[1..], f)
  }

  lemma {:induction false} FlatMapConcat(a: string, b: string, f: char -> string)
    ensures FlatMap(a + b, f) == FlatMap(a, f) + FlatMap(b, f)
  {
    if a != [] {
      assert (a + b)[0] == a[0];
      assert (a + b)[1..] == a[1..] + b;
      FlatMapConcat(a[1..], b, f);
    } else {
      assert a + b == b;
    }
  }

  /** The pipeline before the final `trim`. */
  function Strip(s: string): string {
    FlatMap(s, Project)
  }

  /** `removeVietnameseTones(str)`. */
  function RemoveVietnameseTones(s: string): string {
    Trim(Strip(s))
  }

  lemma {:induction false} StripKept(s: string)
    ensures |Strip(s)| <= |s|
    ensures forall i :: 0 <= i < |Strip(s)| ==> IsKept(Strip(s)[i])
  {
    if s != [] {
      StripKept(s[1..]);
      var head := Project(s[0]);
      var tail := Strip(s[1..]);
      assert forall i :: |head| <= i < |head + tail| ==> (head + tail)[i] == tail[i - |head|];
    }
  }

  /** Only ASCII letters, ASCII digits and white space other than U+2000 and U+2001 remain,
      with no white space at either end. */
  lemma {:induction false} RemoveTonesOutput(s: string)
    ensures forall i :: 0 <= i < |RemoveVietnameseTones(s)| ==> IsKept(RemoveVietnameseTones(s)[i])
    ensures var r := RemoveVietnameseTones(s); r == [] || (!IsSpace(r[0]) && !IsSpace(r[|r| - 1]))
    ensures |RemoveVietnameseTones(s)| <= |s|
  {
    StripKept(s);
    TrimKeepsKept(Strip(s));
    TrimSpec(Strip(s));
  }

  lemma {:induction false} TrimKeepsKept(t: string)
    requires forall i :: 0 <= i < |t| ==> IsKept(t[i])
    ensures forall i :: 0 <= i < |Trim(t)| ==> IsKept(Trim(t)[i])
    ensures |Trim(t)| <= |t|
  {
    var r := Trim(t);
    TrimSpec(t);
    var i :| CutAt(t, r, i);
    assert forall k :: 0 <= k < |r| ==> r[k] == t[i + k];
  }

  /** Stripping works character by character: the pieces of a concatenation are stripped
      independently and stay in order. */
  lemma {:induction false} StripConcat(a: string, b: string)
    ensures Strip(a + b) == Strip(a) + Strip(b)
  {
    FlatMapConcat(a, b, Project);
  }

  /** ASCII letters and digits are kept as they are; đ and Đ become d and D; letters with
      diacritics become their base letter; combining marks and other symbols go. */
  lemma {:induction false} ProjectCases(c: char)
    ensures IsAsciiAlnum(c) ==> Project(c) == [c]
    ensures c == 'đ' ==> Project(c) == "d"
    ensures c == 'Đ' ==> Project(c) == "D"
    ensures '\U{0300}' <= c <= '\U{036F}' ==> Project(c) == []
  {
  }

  /** A letter with diacritics becomes its base letter. */
  lemma {:induction false} ProjectPrecomposed(c: char)
    requires NfdTable.BaseLetter(c).Some?
    ensures Project(c) == [NfdTable.BaseLetter(c).value]
  {
    assert !IsAsciiAlnum(c) && !IsSpace(c);
    assert c != 'đ' && c != 'Đ';
  }

  lemma {:induction false} StripCons(c: char, s: string)
    ensures Strip([c] + s) == Project(c) + Strip(s)
  {
    assert ([c] + s)[1..] == s;
  }

  lemma {:induction false} StripOfKept(s: string)
    requires forall i :: 0 <= i < |s| ==> IsKept(s[i])
    ensures Strip(s) == s
  {
    if s != [] {
      StripOfKept(s[1..]);
      assert s == [s[0]] + s[1..];
    }
  }

  /** Applying the sanitiser twice is applying it once. */
  lemma {:induction false} RemoveTonesIdempotent(s: string)
    ensures RemoveVietnameseTones(RemoveVietnameseTones(s)) == RemoveVietnameseTones(s)
  {
    RemoveTonesOutput(s);
    SanitisedIsFixed(RemoveVietnameseTones(s));
  }

  lemma {:induction false} SanitisedIsFixed(r: string)
    requires forall i :: 0 <= i < |r| ==> IsKept(r[i])
    requires r == [] || (!IsSpace(r[0]) && !IsSpace(r[|r| - 1]))
    ensures RemoveVietnameseTones(r) == r
  {
    StripOfKept(r);
    TrimOfTrimmed(r);
  }

  /** The example the function is named for. */
  lemma {:induction false} RemoveTonesExample()
    ensures RemoveVietnameseTones("Ủng hộ") == "Ung ho"
  {
    StripExample();
    AlnumIsNotSpace("Ung ho"[0]);
    AlnumIsNotSpace("Ung ho"[5]);
    TrimOfTrimmed("Ung ho");
  }

  lemma {:induction false} StripExample()
    ensures Strip("Ủng hộ") == "Ung ho"
  {
    StripFirstWord();
    StripSecondWord();
    StripConcat("Ủng", " hộ");
    assert "Ủng" + " hộ" == "Ủng hộ";
  }

  /** Ủ (U+1EE6) and ộ (U+1ED9) lose their marks. */
  lemma {:induction false} ProjectExampleLetters()
    ensures Project('Ủ') == "U" && Project('ộ') == "o"
  {
  }

  lemma {:induction false} StripFirstWord()
    ensures Strip("Ủng") == "Ung"
  {
    ProjectExampleLetters();
    StripCons('Ủ', "ng");
    assert ['Ủ'] + "ng" == "Ủng";
  }

  lemma {:induction false} StripSecondWord()
    ensures Strip(" hộ") == " ho"
  {
    ProjectExampleLetters();
    StripCons('ộ', "");
    assert ['ộ'] + "" == "ộ";
    StripCons('h', "ộ");
    assert ['h'] + "ộ" == "hộ";
    StripCons(' ', "hộ");
    assert [' '] + "hộ" == " hộ";
  }

  // ---------------------------------------------------------------------------------------
  // generateQRUrl
  // ---------------------------------------------------------------------------------------

  const Account := "686829078888"
  const Bank := "MBBank"
  const QrTemplate := "compact"
  const Download := "false"
  const QrEndpoint := "https://qr.sepay.vn/img?"

  predicate IsMarkupChar(c: char) { c == '<' || c == '>' || c == '"' || c == '\'' || c == '&' }

  /** `.replace(/[<>\"'&]/g, '')`. */
  function RemoveMarkup(s: string): (r: string)
    ensures |r| <= |s|
  {
    if s == [] then []
    else (if IsMarkupChar(s[0]) then [] else [s[0]]) + RemoveMarkup(s[1..])
  }

  /** Nothing that survives the sanitiser is a markup character. */
  lemma {:induction false} RemoveMarkupOfKept(s: string)
    requires forall i :: 0 <= i < |s| ==> IsKept(s[i])
    ensures RemoveMarkup(s) == s
  {
    if s != [] {
      var t := s[1..];
      assert forall i :: 0 <= i < |t| ==> t[i] == s[i + 1];
      RemoveMarkupOfKept(t);
      KeptIsNotMarkup(s[0]);
      assert s == [s[0]] + t;
    }
  }

  lemma {:induction false} KeptIsNotMarkup(c: char)
    requires IsKept(c)
    ensures !IsMarkupChar(c)
  {
  }

  /** The memo written into the QR code for `id`: the sanitised id, cleaned of markup
      characters and trimmed once more. */
  function QrMemo(id: string): string {
    Trim(RemoveMarkup(RemoveVietnameseTones(id)))
  }

  /** The second cleaning changes nothing: the memo is the sanitised id. */
  lemma {:induction false} QrMemoIsSanitised(id: string)
    ensures QrMemo(id) == RemoveVietnameseTones(id)
  {
    RemoveTonesOutput(id);
    CleanOfSanitised(RemoveVietnameseTones(id));
  }

  lemma {:induction false} CleanOfSanitised(r: string)
    requires forall i :: 0 <= i < |r| ==> IsKept(r[i])
    requires r == [] || (!IsSpace(r[0]) && !IsSpace(r[|r| - 1]))
    ensures Trim(RemoveMarkup(r)) == r
  {
    RemoveMarkupOfKept(r);
    TrimOfTrimmed(r);
  }

  /** The parameters of the QR URL's query, around the encoded memo `enc`, in order. */
  function QueryParams(enc: string): seq<string> {
    ["acc=" + Account, "bank=" + Bank, "des=" + enc, "template=" + QrTemplate, "download=" + Download]
  }

  /** The query string: the parameters joined by '&'. */
  function QueryWith(enc: string): string {
    Join(QueryParams(enc), '&')
  }

  /** `generateQRUrl(id)`. */
  function GenerateQrUrl(id: string): string {
    QrEndpoint + QueryWith(UriCodec.EncodeUriComponent(QrMemo(id)))
  }

  /** A memo value without '&' cannot add parameters: the query splits back into exactly
      its five parameters. */
  lemma {:induction false} QueryParameters(enc: string)
    requires !HasChar(enc, '&')
    ensures Split(QueryWith(enc), '&') == QueryParams(enc)
  {
    var ps := QueryParams(enc);
    assert !HasChar(ps[0], '&');
    assert !HasChar(ps[1], '&');
    assert !HasChar(ps[2], '&');
    assert !HasChar(ps[3], '&');
    assert !HasChar(ps[4], '&');
    SplitJoin(ps, '&');
  }

  /** Whatever the id, the QR URL is the Sepay endpoint followed by exactly the five
      parameters: the fixed account, bank, template and download flag, and the memo, whose
      value percent-decodes to the sanitised id. */
  lemma {:induction false} QrUrlParameters(id: string)
    ensures exists enc ::
      GenerateQrUrl(id) == QrEndpoint + QueryWith(enc) &&
      Split(QueryWith(enc), '&') == QueryParams(enc) &&
      UriCodec.DecodeUriComponent(enc) == Some(RemoveVietnameseTones(id))
  {
    var memo := QrMemo(id);
    QrMemoIsSanitised(id);
    var enc := MemoParameter(memo);
    assert GenerateQrUrl(id) == QrEndpoint + QueryWith(enc);
  }

  lemma {:induction false} MemoParameter(memo: string) returns (enc: string)
    ensures enc == UriCodec.EncodeUriComponent(memo)
    ensures Split(QueryWith(enc), '&') == QueryParams(enc)
    ensures UriCodec.DecodeUriComponent(enc) == Some(memo)
  {
    enc := UriCodec.EncodeUriComponent(memo);
    UriCodec.EncodedHasNoSeparator(memo);
    QueryParameters(enc);
    UriCodec.DecodeEncode(memo);
  }

  // ---------------------------------------------------------------------------------------
  // Donation ids
  // ---------------------------------------------------------------------------------------

  /** `String.prototype.substr(start, length)` for a non-negative start. */
  function Substr(s: string, start: nat, length: nat): (r: string)
    ensures |r| <= length
    ensures start <= |s| ==> start + |r| <= |s| && r == s[start..start + |r|]
    ensures start + length <= |s| ==> |r| == length
    ensures |s| <= start ==> r == []
  {
    if |s| <= start then []
    else if start + length <= |s| then s[start..start + length]
    else s[start..]
  }

  /** `createDonationId()`: the uuid when the generator produced one, otherwise `DON_`, the
      clock reading in milliseconds, `_` and at most nine characters of the random number
      in base 36 (`random36` is `Math.random().toString(36)`, whose first two characters
      are "0."). */
  function CreateDonationId(uuid: Option<string>, nowMs: nat, random36: string): (id: string)
    ensures uuid.Some? ==> id == uuid.value
    ensures uuid.None? ==> id == "DON_" + NatToString(nowMs) + "_" + Substr(random36, 2, 9)
  {
    match uuid
    case Some(u) => u
    case None => "DON_" + NatToString(nowMs) + "_" + Substr(random36, 2, 9)
  }

  /** The fallback id carries the timestamp it was made at: split on '_', its pieces are
      the prefix, the timestamp's digits and the random part. */
  lemma {:induction false} FallbackIdCarriesTimestamp(nowMs: nat, random36: string)
    requires !HasChar(random36, '_')
    ensures var parts := Split(CreateDonationId(None, nowMs, random36), '_');
      |parts| == 3 && parts[0] == "DON" && AllDigits(parts[1]) && DigitsValue(parts[1]) == nowMs
  {
    var rand := Substr(random36, 2, 9);
    var ts := NatToString(nowMs);
    assert !HasChar(rand, '_');
    assert !HasChar(ts, '_');
    assert CreateDonationId(None, nowMs, random36) == "DON" + "_" + (ts + "_" + rand);
    SplitNoSeparator(rand, '_');
    SplitAfterPiece(ts, rand, '_');
    SplitAfterPiece("DON", ts + "_" + rand, '_');
    NatToStringRoundTrip(nowMs);
  }

  /** `getBankContent()`: the donation id, or a fixed memo before one exists. */
  function BankContent(donationId: Option<string>): (r: string)
    ensures Truthy(donationId) ==> r == donationId.value
    ensures !Truthy(donationId) ==> r == "Ung ho CLYT"
  {
    if Truthy(donationId) then donationId.value else "Ung ho CLYT"
  }

  predicate IsLowerHex(c: char) { IsAsciiDigit(c) || ('a' <= c <= 'f') }

  /** The text form of a version-4 uuid (section 4.4 of RFC 4122), as the `uuid` package
      writes it: 32 lower-case hexadecimal digits in groups of 8-4-4-4-12. */
  predicate IsUuidV4(s: string) {
    |s| == 36 &&
    (forall i :: 0 <= i < 36 ==> (i == 8 || i == 13 || i == 18 || i == 23) == (s[i] == '-')) &&
    (forall i :: 0 <= i < 36 && s[i] != '-' ==> IsLowerHex(s[i])) &&
    s[14] == '4' && (s[19] == '8' || s[19] == '9' || s[19] == 'a' || s[19] == 'b')
  }

  /** `s` without its hyphens. */
  function WithoutHyphens(s: string): string {
    if s == [] then [] else (if s[0] == '-' then [] else [s[0]]) + WithoutHyphens(s[1..])
  }

  lemma {:induction false} WithoutHyphensConcat(a: string, b: string)
    ensures WithoutHyphens(a + b) == WithoutHyphens(a) + WithoutHyphens(b)
  {
    if a != [] {
      assert (a + b)[1..] == a[1..] + b;
      WithoutHyphensConcat(a[1..], b);
    } else {
      assert a + b == b;
    }
  }

  lemma {:induction false} WithoutHyphensOfHex(s: string)
    requires AllLowerHex(s)
    ensures WithoutHyphens(s) == s
  {
    if s != [] {
      WithoutHyphensOfHex(s[1..]);
      assert s == [s[0]] + s[1..];
    }
  }

  lemma {:induction false} StripOfHexAndHyphens(s: string)
    requires forall i :: 0 <= i < |s| ==> s[i] == '-' || IsLowerHex(s[i])
    ensures Strip(s) == WithoutHyphens(s)
  {
    if s != [] {
      StripOfHexAndHyphens(s[1..]);
    }
  }

  /** For a uuid the QR memo is the id without its four hyphens: its five groups of hex
      digits run together, 32 characters. So the memo differs from the id that is
      registered with the server and shown as the bank content. */
  lemma {:induction false} UuidMemo(id: string)
    requires IsUuidV4(id)
    ensures QrMemo(id) == id[..8] + id[9..13] + id[14..18] + id[19..23] + id[24..]
    ensures |QrMemo(id)| == 32 && !HasChar(QrMemo(id), '-')
    ensures QrMemo(id) != BankContent(Some(id))
  {
    var w := UuidGroups(id);
    StripOfHexAndHyphens(id);
    QrMemoIsSanitised(id);
    HexIsTrimmed(w);
  }

  /** The hex digits of a uuid, group after group. */
  lemma {:induction false} UuidGroups(id: string) returns (w: string)
    requires IsUuidV4(id)
    ensures w == id[..8] + id[9..13] + id[14..18] + id[19..23] + id[24..]
    ensures WithoutHyphens(id) == w && |w| == 32
    ensures forall i :: 0 <= i < |w| ==> IsLowerHex(w[i])
    ensures forall i :: 0 <= i < |id| ==> id[i] == '-' || IsLowerHex(id[i])
  {
    var g1, g2, g3, g4, g5 := id[..8], id[9..13], id[14..18], id[19..23], id[24..];
    UuidSplit(id);
    HexGroup(id, 0, 8);
    HexGroup(id, 9, 13);
    HexGroup(id, 14, 18);
    HexGroup(id, 19, 23);
    HexGroup(id, 24, 36);
    assert g5 == id[24..36];
    w := g1 + g2 + g3 + g4 + g5;
    WithoutHyphensOfGroups(g1, g2, g3, g4, g5);
  }

  /** A uuid is its five groups joined by hyphens. */
  lemma {:induction false} UuidSplit(id: string)
    requires IsUuidV4(id)
    ensures id == id[..8] + "-" + id[9..13] + "-" + id[14..18] + "-" + id[19..23] + "-" + id[24..]
  {
    var j := id[..8] + "-" + id[9..13] + "-" + id[14..18] + "-" + id[19..23] + "-" + id[24..];
    assert |j| == 36;
    forall i | 0 <= i < 36 ensures j[i] == id[i] {
      if i == 8 || i == 13 || i == 18 || i == 23 {
        assert id[i] == '-';
      }
    }
  }

  /** The characters of a uuid between two hyphens are hex digits. */
  lemma {:induction false} HexGroup(id: string, from: nat, to: nat)
    requires IsUuidV4(id) && from <= to <= 36
    requires !(from <= 8 < to) && !(from <= 13 < to) && !(from <= 18 < to) && !(from <= 23 < to)
    ensures AllLowerHex(id[from..to])
  {
    forall i | 0 <= i < to - from ensures IsLowerHex(id[from..to][i]) {
      var k := from + i;
      assert id[from..to][i] == id[k];
      assert k != 8 && k != 13 && k != 18 && k != 23;
      assert id[k] != '-';
    }
  }

  predicate AllLowerHex(s: string) {
    forall i :: 0 <= i < |s| ==> IsLowerHex(s[i])
  }

  /** Removing the hyphens of five hex groups joined by hyphens runs them together. */
  lemma {:induction false} WithoutHyphensOfGroups(g1: string, g2: string, g3: string, g4: string, g5: string)
    requires AllLowerHex(g1) && AllLowerHex(g2) && AllLowerHex(g3) && AllLowerHex(g4) && AllLowerHex(g5)
    ensures WithoutHyphens(g1 + "-" + g2 + "-" + g3 + "-" + g4 + "-" + g5) == g1 + g2 + g3 + g4 + g5
    ensures AllLowerHex(g1 + g2 + g3 + g4 + g5)
  {
    WithoutHyphensOfHex(g1);
    WithoutHyphensOfHex(g2);
    WithoutHyphensOfHex(g3);
    WithoutHyphensOfHex(g4);
    WithoutHyphensOfHex(g5);
    WithoutHyphensStep(g1, g2);
    WithoutHyphensStep(g1 + "-" + g2, g3);
    WithoutHyphensStep(g1 + "-" + g2 + "-" + g3, g4);
    WithoutHyphensStep(g1 + "-" + g2 + "-" + g3 + "-" + g4, g5);
    HexConcat(g1, g2);
    HexConcat(g1 + g2, g3);
    HexConcat(g1 + g2 + g3, g4);
    HexConcat(g1 + g2 + g3 + g4, g5);
  }

  lemma {:induction false} HexConcat(a: string, b: string)
    requires AllLowerHex(a) && AllLowerHex(b)
    ensures AllLowerHex(a + b)
  {
    forall i | 0 <= i < |a + b| ensures IsLowerHex((a + b)[i]) {
      if i >= |a| {
        assert (a + b)[i] == b[i - |a|];
      }
    }
  }

  lemma {:induction false} WithoutHyphensStep(a: string, g: string)
    ensures WithoutHyphens(a + "-" + g) == WithoutHyphens(a) + WithoutHyphens(g)
  {
    WithoutHyphensConcat(a + "-", g);
    WithoutHyphensConcat(a, "-");
    assert WithoutHyphens("-") == [];
  }

  lemma {:induction false} HexIsTrimmed(w: string)
    requires forall i :: 0 <= i < |w| ==> IsLowerHex(w[i])
    ensures Trim(w) == w && !HasChar(w, '-')
  {
    TrimOfTrimmed(w);
  }

  // ---------------------------------------------------------------------------------------
  // Screen state
  // ---------------------------------------------------------------------------------------

  /** The body posted to `/initiate-donation`. */
  datatype InitRequest = InitRequest(donationId: string, campaignId: string)

  /** The alert shown, if any, by one run of a handler. */
  datatype Alert = NoAlert | MissingCampaign | QrFailed | AutoQrFailed

  /** The state of one donation screen. `campaignId` is the `_id` of the route's campaign. */
  class DonationScreenState {
    const campaignId: Option<string>
    var donationId: Option<string>
    var qrImageUri: Option<string>
    var isGeneratingQR: bool
    var qrLoading: bool
    var qrError: bool
    var showQRSection: bool

    /** Nothing ever sets `qrError`, so the retry button (shown only under a QR image
        with `qrError`) never appears; a QR image exists only once an id does. */
    predicate Valid()
      reads this
    {
      !qrError && (qrImageUri.Some? ==> donationId.Some?)
    }

    constructor (campaignId: Option<string>)
      ensures Valid()
      ensures this.campaignId == campaignId
      ensures donationId == None && qrImageUri == None
      ensures !isGeneratingQR && !qrLoading && !qrError && !showQRSection
    {
      this.campaignId := campaignId;
      donationId := None;
      qrImageUri := None;
      isGeneratingQR := false;
      qrLoading := false;
      qrError := false;
      showQRSection := false;
    }

    /** `handleGenerateQR()`, with `newId` the result of `createDonationId()` and `postOk`
        whether the request came back with a 2xx status. Without a campaign it alerts and
        stops; otherwise every call replaces the donation id and posts it, and the QR URL
        changes only after a successful response. */
    method HandleGenerateQR(newId: string, postOk: bool) returns (request: Option<InitRequest>, alert: Alert)
      requires Valid()
      modifies this
      ensures Valid()
      ensures !isGeneratingQR && !qrError && qrLoading == old(qrLoading)
      ensures !Truthy(campaignId) ==>
        request == None && alert == MissingCampaign && donationId == old(donationId) &&
        qrImageUri == old(qrImageUri) && showQRSection == old(showQRSection)
      ensures Truthy(campaignId) ==>
        request == Some(InitRequest(newId, campaignId.value)) && donationId == Some(newId)
      ensures Truthy(campaignId) && postOk ==>
        alert == NoAlert && qrImageUri == Some(GenerateQrUrl(newId)) && showQRSection
      ensures Truthy(campaignId) && !postOk ==>
        alert == QrFailed && qrImageUri == old(qrImageUri) && showQRSection == old(showQRSection)
    {
      isGeneratingQR := true;
      qrError := false;
      if !Truthy(campaignId) {
        isGeneratingQR := false;
        return None, MissingCampaign;
      }
      donationId := Some(newId);
      request := Some(InitRequest(newId, campaignId.value));
      if postOk {
        qrImageUri := Some(GenerateQrUrl(newId));
        showQRSection := true;
        alert := NoAlert;
      } else {
        alert := QrFailed;
      }
      isGeneratingQR := false;
    }

    /** `autoInitDonation()`: the same request, made only while there is no donation id and
        there is a campaign. */
    method AutoInitDonation(newId: string, postOk: bool) returns (request: Option<InitRequest>, alert: Alert)
      requires Valid()
      modifies this
      ensures Valid()
      ensures isGeneratingQR == old(isGeneratingQR) && qrLoading == old(qrLoading)
      ensures !(!Truthy(old(donationId)) && Truthy(campaignId)) ==>
        request == None && alert == NoAlert && donationId == old(donationId) &&
        qrImageUri == old(qrImageUri) && showQRSection == old(showQRSection)
      ensures !Truthy(old(donationId)) && Truthy(campaignId) ==>
        request == Some(InitRequest(newId, campaignId.value)) && donationId == Some(newId) &&
        (postOk ==> alert == NoAlert && qrImageUri == Some(GenerateQrUrl(newId)) && showQRSection) &&
        (!postOk ==> alert == AutoQrFailed && qrImageUri == old(qrImageUri) &&
                     showQRSection == old(showQRSection))
    {
      if !Truthy(donationId) && Truthy(campaignId) {
        donationId := Some(newId);
        request := Some(InitRequest(newId, campaignId.value));
        if postOk {
          qrImageUri := Some(GenerateQrUrl(newId));
          showQRSection := true;
          alert := NoAlert;
        } else {
          alert := AutoQrFailed;
        }
      } else {
        request := None;
        alert := NoAlert;
      }
    }

    /** `retryLoadQR()`: shows the loading indicator and rebuilds the QR URL from the
        current donation id. With no id yet, `generateQRUrl(null)` throws before the URL
        is replaced (`threw`). */
    method RetryLoadQR() returns (threw: bool)
      requires Valid()
      modifies this
      ensures Valid()
      ensures qrLoading && !qrError
      ensures threw <==> old(donationId).None?
      ensures old(donationId).Some? ==> qrImageUri == Some(GenerateQrUrl(old(donationId).value))
      ensures old(donationId).None? ==> qrImageUri == old(qrImageUri)
      ensures donationId == old(donationId) && showQRSection == old(showQRSection)
      ensures isGeneratingQR == old(isGeneratingQR)
    {
      qrLoading := true;
      qrError := false;
      match donationId
      case None =>
        threw := true;
      case Some(id) =>
        qrImageUri := Some(GenerateQrUrl(id));
        threw := false;
    }
  }
}

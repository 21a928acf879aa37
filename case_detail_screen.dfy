/**
 * The web client's campaign detail screen: the transfer content shown for a bank transfer,
 * the progress bar's percentage and the days left. Without a loaded campaign each helper
 * gives its empty value. Dates are milliseconds since the epoch, `now` is a parameter, and
 * an end date that does not parse is `None`.
 */
module CaseDetailScreen {
  import opened Wrappers
  import opened JsText
  import opened JsNumber

  datatype CaseCampaign = CaseCampaign(id: string, title: string, goalAmount: int,
                                       currentAmount: int, endDate: Option<int>)

  /** `s.substring(0, n)`. */
  function Prefix(s: string, n: nat): (r: string)
    ensures |r| <= n && |r| <= |s| && r == s[..|r|]
    ensures |s| >= n ==> |r| == n
    ensures |s| < n ==> r == s
  {
    if |s| <= n then s else s[..n]
  }

  /** `s.slice(-n)`: the last `n` characters, or all of a shorter string. */
  function LastChars(s: string, n: nat): (r: string)
    ensures |r| <= n && |r| <= |s| && r == s[|s| - |r|..]
    ensures |s| >= n ==> |r| == n
    ensures |s| < n ==> r == s
  {
    if |s| <= n then s else s[|s| - n..]
  }

  /** `getBankContent`: the first 20 characters of the title, a space, and the last 8 of
      the `_id` in capitals. */
  function BankContent(c: Option<CaseCampaign>): (r: string)
    ensures c.None? ==> r == ""
    ensures |r| <= 29
  {
    match c
    case None => ""
    case Some(k) => Prefix(k.title, 20) + " " + AsciiUpper(LastChars(k.id, 8))
  }

  /** The content splits back into its parts: the title's prefix as typed (accents and
      punctuation kept), a space, and the code. */
  lemma {:induction false} BankContentParts(c: CaseCampaign)
    ensures var r := BankContent(Some(c));
      var p := Prefix(c.title, 20);
      var code := AsciiUpper(LastChars(c.id, 8));
      |r| == |p| + 1 + |code| && r[..|p|] == c.title[..|p|] && r[|p|] == ' ' &&
      r[|r| - |code|..] == code
  {
    var r := BankContent(Some(c));
    var p := Prefix(c.title, 20);
    var code := AsciiUpper(LastChars(c.id, 8));
    assert r == p + " " + code;
    assert r[|r| - |code|..] == code;
  }

  /** The code lower-cases back to the end of the id when the id is lower-case
      hexadecimal, as stored ids are. */
  lemma {:induction false} CampaignCodeRoundTrip(id: string)
    requires forall i :: 0 <= i < |id| ==> IsAsciiDigit(id[i]) || 'a' <= id[i] <= 'f'
    ensures ToLower(AsciiUpper(LastChars(id, 8))) == LastChars(id, 8)
  {
    var tail := LastChars(id, 8);
    forall i | 0 <= i < |tail| ensures IsAsciiDigit(tail[i]) || 'a' <= tail[i] <= 'f' {
      assert tail[i] == id[|id| - |tail| + i];
    }
    HexTextCaseRoundTrip(tail);
  }

  lemma {:induction false} HexTextCaseRoundTrip(s: string)
    requires forall i :: 0 <= i < |s| ==> IsAsciiDigit(s[i]) || 'a' <= s[i] <= 'f'
    ensures ToLower(AsciiUpper(s)) == s
  {
    var back := ToLower(AsciiUpper(s));
    forall i | 0 <= i < |s| ensures back[i] == s[i] {
      HexCaseRoundTrip(s[i]);
    }
  }

  /** One hexadecimal digit survives upper-casing and lower-casing. */
  lemma {:induction false} HexCaseRoundTrip(c: char)
    requires IsAsciiDigit(c) || 'a' <= c <= 'f'
    ensures ToLowerChar(AsciiUpperChar(c)) == c
  {
  }

  /** The content depends on the title and the id only. */
  lemma {:induction false} BankContentDeterministic(a: CaseCampaign, b: CaseCampaign)
    requires a.title == b.title && a.id == b.id
    ensures BankContent(Some(a)) == BankContent(Some(b))
  {
  }

  /** `getProgressPercentage`: `Math.min(current / goal * 100, 100)`. */
  function ProgressPercentage(c: Option<CaseCampaign>): (r: Double)
    ensures c.None? ==> r == Finite(0.0)
    ensures r.Finite? ==> r.v <= 100.0
    ensures r != PosInf
  {
    match c
    case None => Finite(0.0)
    case Some(k) => MinWith(Scale(Divide(k.currentAmount as real, k.goalAmount as real), 100.0), 100.0)
  }

  /** With a positive goal the percentage is the raised share, capped at 100; with a goal
      of 0 it is 100 once anything is raised and NaN while nothing is. */
  lemma {:induction false} ProgressCases(k: CaseCampaign)
    ensures k.goalAmount > 0 && k.currentAmount >= 0 ==>
      var share := k.currentAmount as real * 100.0 / k.goalAmount as real;
      ProgressPercentage(Some(k)) == Finite(if share < 100.0 then share else 100.0) &&
      0.0 <= ProgressPercentage(Some(k)).v
    ensures k.goalAmount == 0 ==>
      ProgressPercentage(Some(k)) == (if k.currentAmount > 0 then Finite(100.0)
                                      else if k.currentAmount < 0 then NegInf else NaN)
  {
    if k.goalAmount > 0 && k.currentAmount >= 0 {
      var g, c := k.goalAmount as real, k.currentAmount as real;
      assert c / g * 100.0 == c * 100.0 / g;
      assert c * 100.0 / g >= 0.0;
    }
  }

  const DayMs: int := 1000 * 60 * 60 * 24

  /** `Math.ceil(diff / DayMs)`. */
  function CeilDays(diff: int): (d: int)
    ensures (d - 1) * DayMs < diff <= d * DayMs
  {
    -((-diff) / DayMs)
  }

  /** `getDaysRemaining`: whole days to the end date rounded up, never negative; NaN for an
      end date that does not parse. */
  function DaysRemaining(c: Option<CaseCampaign>, now: int): (r: Option<int>)
    ensures c.None? ==> r == Some(0)
    ensures r.None? <==> c.Some? && c.value.endDate.None?
    ensures r.Some? ==> r.value >= 0
  {
    match c
    case None => Some(0)
    case Some(k) =>
      match k.endDate
      case None => None
      case Some(end) =>
        var d := CeilDays(end - now);
        Some(if 0 < d then d else 0)
  }

  /** Days remaining count partial days as whole and reach 0 once the end has passed. */
  lemma {:induction false} DaysRemainingBounds(k: CaseCampaign, now: int)
    requires k.endDate.Some?
    ensures var diff := k.endDate.value - now;
      var d := DaysRemaining(Some(k), now).value;
      (diff <= 0 ==> d == 0) && (diff > 0 ==> (d - 1) * DayMs < diff <= d * DayMs)
  {
    var diff := k.endDate.value - now;
    var d := CeilDays(diff);
    if diff > 0 {
      assert d > 0;
    } else {
      assert d <= 0;
    }
  }
}

/**
 * The mobile news feed's helpers: how long ago a post was made, in whole hours or days,
 * and the icon and colour of each post type. Times are milliseconds; a date that does not
 * parse is `None`, and `now` is a parameter.
 */
module NewsFeed {
  import opened Wrappers
  import opened JsText

  const HourMs: int := 1000 * 60 * 60
  const DayMs: int := 24 * HourMs

  /** What `formatTime` reports. `Invalid` is the NaN an unparsable date gives: it fails
      both comparisons and reaches the days branch. */
  datatype Age = JustNow | HoursAgo(h: nat) | DaysAgo(d: nat) | Invalid

  /** `diffInHours = Math.floor((now - date) / 3600000)` and the three branches. */
  function AgeOf(date: Option<int>, now: int): (a: Age)
    ensures a == Invalid <==> date.None?
    ensures date.Some? ==> (a == JustNow <==> now - date.value < HourMs)
    ensures date.Some? && a.HoursAgo? ==>
      1 <= a.h < 24 && a.h * HourMs <= now - date.value < (a.h + 1) * HourMs
    ensures date.Some? && a.DaysAgo? ==>
      1 <= a.d && a.d * DayMs <= now - date.value < (a.d + 1) * DayMs
  {
    match date
    case None => Invalid
    case Some(ms) =>
      var diff := now - ms;
      var hours := diff / HourMs;
      if hours < 1 then JustNow
      else if hours < 24 then HoursAgo(hours)
      else
        var days := hours / 24;
        assert diff == hours * HourMs + diff % HourMs;
        assert hours == days * 24 + hours % 24;
        assert hours * HourMs == days * DayMs + (hours % 24) * HourMs;
        assert (hours % 24) * HourMs <= 23 * HourMs;
        DaysAgo(days)
  }

  const JustNowText := "Vừa xong"
  const HoursSuffix := " giờ trước"
  const DaysSuffix := " ngày trước"

  /** The text shown for an age. */
  function Render(a: Age): (r: string)
    ensures a == JustNow <==> r == JustNowText
  {
    match a
    case JustNow => JustNowText
    case HoursAgo(h) => NatToString(h) + HoursSuffix
    case DaysAgo(d) => NatToString(d) + DaysSuffix
    case Invalid => "NaN" + DaysSuffix
  }

  /** `formatTime(dateString)`. */
  function FormatTime(date: Option<int>, now: int): (r: string)
    ensures date.Some? && date.value > now ==> r == JustNowText
  {
    Render(AgeOf(date, now))
  }

  /** A number followed by a text that does not start with a digit splits back into both. */
  lemma {:induction false} NumberThenText(m: nat, s: string, n: nat, t: string)
    requires s != [] && t != [] && !IsAsciiDigit(s[0]) && !IsAsciiDigit(t[0])
    requires NatToString(m) + s == NatToString(n) + t
    ensures m == n && s == t
  {
    var a, b := NatToString(m), NatToString(n);
    var r := a + s;
    DigitPrefixOfDigits(a, s);
    DigitPrefixOfDigits(b, t);
    assert a == b;
    assert s == r[|a|..] == t;
    NatToStringInjective(m, n);
  }

  /** The digits a rendered age starts with: the count, or none. */
  lemma {:induction false} RenderDigits(a: Age)
    ensures a.HoursAgo? ==> DigitPrefix(Render(a)) == NatToString(a.h)
    ensures a.DaysAgo? ==> DigitPrefix(Render(a)) == NatToString(a.d)
    ensures a.JustNow? || a.Invalid? ==> DigitPrefix(Render(a)) == []
  {
    match a
    case HoursAgo(h) => DigitPrefixOfDigits(NatToString(h), HoursSuffix);
    case DaysAgo(d) => DigitPrefixOfDigits(NatToString(d), DaysSuffix);
    case _ =>
  }

  /** Different ages read differently: the text determines the age. */
  lemma {:induction false} RenderInjective(a: Age, b: Age)
    requires Render(a) == Render(b)
    ensures a == b
  {
    var r := Render(a);
    RenderDigits(a);
    RenderDigits(b);
    var p := DigitPrefix(r);
    if p != [] {
      if a.HoursAgo? { NatToStringRoundTrip(a.h); } else { NatToStringRoundTrip(a.d); }
      if b.HoursAgo? { NatToStringRoundTrip(b.h); } else { NatToStringRoundTrip(b.d); }
      assert r[|p| + 1] == (if a.HoursAgo? then 'g' else 'n');
      assert r[|p| + 1] == (if b.HoursAgo? then 'g' else 'n');
    }
  }

  // ---------------------------------------------------------------------------------------
  // Post types
  // ---------------------------------------------------------------------------------------

  /** The `type` values a feed item may have. */
  const FeedTypes: seq<string> := ["donation", "campaign_created", "thank_you", "event", "system_announcement"]

  const DefaultIcon := "📝"
  const DefaultColor := "#757575"

  /** `getPostIcon(type)`. */
  function PostIcon(kind: string): (r: string)
    ensures r == DefaultIcon <==> kind !in FeedTypes
  {
    match kind
    case "donation" => "💚"
    case "campaign_created" => "🚀"
    case "thank_you" => "🙏"
    case "event" => "🎪"
    case "system_announcement" => "📢"
    case _ => DefaultIcon
  }

  /** `getPostColor(type)`. */
  function PostColor(kind: string): (r: string)
    ensures r == DefaultColor <==> kind !in FeedTypes
  {
    match kind
    case "donation" => "#4CAF50"
    case "campaign_created" => "#2196F3"
    case "thank_you" => "#FF9800"
    case "event" => "#9C27B0"
    case "system_announcement" => "#F44336"
    case _ => DefaultColor
  }

  /** Each feed type has its own icon and its own colour: either one names the type. */
  lemma {:induction false} StylesIdentifyType(k1: string, k2: string)
    requires k1 in FeedTypes && k2 in FeedTypes
    ensures PostIcon(k1) == PostIcon(k2) <==> k1 == k2
    ensures PostColor(k1) == PostColor(k2) <==> k1 == k2
  {
  }
}

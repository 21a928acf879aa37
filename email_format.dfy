/**
 * The e-mail check the register, login and forgot-password screens share: a test of the
 * whole string against `^[^\s@]+@[^\s@]+\.[^\s@]+$`. This is a loose shape, not the
 * addr-spec of section 3.4.1 of RFC 5322.
 */
module EmailFormat {
  import opened JsText

  /** A character of the class `[^\s@]`. */
  predicate Plain(c: char) {
    !IsSpace(c) && c != '@'
  }

  /** Every character of `s[lo..hi]` is plain. */
  predicate PlainBetween(s: string, lo: int, hi: int)
    requires 0 <= lo <= hi <= |s|
  {
    forall k :: lo <= k < hi ==> Plain(s[k])
  }

  /** The regular expression matches `s`: there is an `@` at `i` and a `.` at `j` such
      that the three runs around them are non-empty and plain. */
  predicate IsValidEmail(s: string) {
    exists i, j :: 0 < i && i + 1 < j && j + 1 < |s| && s[i] == '@' && s[j] == '.' &&
      PlainBetween(s, 0, i) && PlainBetween(s, i + 1, j) && PlainBetween(s, j + 1, |s|)
  }

  /** `d` has a `.` that is neither its first nor its last character. */
  predicate HasInnerDot(d: string) {
    exists j :: 0 < j < |d| - 1 && d[j] == '.'
  }

  predicate NoSpace(s: string) {
    forall k :: 0 <= k < |s| ==> !IsSpace(s[k])
  }

  /** The same set of strings described by their parts: no white space, exactly one `@`,
      something before it, and after it a `.` that is neither first nor last. */
  predicate EmailShape(s: string) {
    NoSpace(s) && CountChar(s, '@') == 1 &&
    exists i :: 0 < i < |s| && s[i] == '@' && HasInnerDot(s[i + 1..])
  }

  /** The pattern and the description by parts accept the same strings. */
  lemma {:induction false} EmailShapeIff(s: string)
    ensures IsValidEmail(s) <==> EmailShape(s)
  {
    if IsValidEmail(s) {
      var i, j :| 0 < i && i + 1 < j && j + 1 < |s| && s[i] == '@' && s[j] == '.' &&
        PlainBetween(s, 0, i) && PlainBetween(s, i + 1, j) && PlainBetween(s, j + 1, |s|);
      MatchHasShape(s, i, j);
    }
    if EmailShape(s) {
      var i :| 0 < i < |s| && s[i] == '@' && HasInnerDot(s[i + 1..]);
      var d := s[i + 1..];
      var j' :| 0 < j' < |d| - 1 && d[j'] == '.';
      ShapeMatches(s, i, i + 1 + j');
    }
  }

  lemma {:induction false} MatchHasShape(s: string, i: int, j: int)
    requires 0 < i && i + 1 < j && j + 1 < |s| && s[i] == '@' && s[j] == '.'
    requires PlainBetween(s, 0, i) && PlainBetween(s, i + 1, j) && PlainBetween(s, j + 1, |s|)
    ensures EmailShape(s)
  {
    forall k | 0 <= k < |s| ensures !IsSpace(s[k]) {
      if k < i {} else if k == i {} else if k < j {} else if k == j {} else {}
    }
    var a, d := s[..i], s[i + 1..];
    assert forall k :: 0 <= k < |a| ==> a[k] == s[k];
    assert forall k :: 0 <= k < |d| ==> d[k] == s[i + 1 + k];
    CountAround(s, i, '@');
    assert !HasChar(a, '@');
    assert !HasChar(d, '@');
    assert d[j - i - 1] == '.';
  }

  lemma {:induction false} ShapeMatches(s: string, i: int, j: int)
    requires NoSpace(s) && CountChar(s, '@') == 1
    requires 0 < i && i + 1 < j && j + 1 < |s| && s[i] == '@' && s[j] == '.'
    ensures IsValidEmail(s)
  {
    var a, d := s[..i], s[i + 1..];
    CountAround(s, i, '@');
    assert !HasChar(a, '@');
    assert !HasChar(d, '@');
    assert forall k :: 0 <= k < |a| ==> a[k] == s[k];
    assert forall k :: 0 <= k < |d| ==> d[k] == s[i + 1 + k];
    assert PlainBetween(s, 0, i);
    assert forall k :: i + 1 <= k < |s| ==> Plain(s[k]);
  }

  /** A string that begins with white space is rejected, however the rest looks. */
  lemma {:induction false} LeadingSpaceRejected(s: string)
    requires |s| > 0 && IsSpace(s[0])
    ensures !IsValidEmail(s)
  {
    EmailShapeIff(s);
  }

  /** A string with a second `@` is rejected. */
  lemma {:induction false} TwoAtsRejected(s: string, i: int, j: int)
    requires 0 <= i < j < |s| && s[i] == '@' && s[j] == '@'
    ensures !IsValidEmail(s)
  {
    EmailShapeIff(s);
    CountAround(s, j, '@');
    assert s[..j][i] == '@';
  }

  /** "a@b.co" is accepted and "a@b." and "@b.co" are not. */
  lemma {:induction false} EmailExamples()
    ensures IsValidEmail("a@b.co")
    ensures !IsValidEmail("a@b.")
    ensures !IsValidEmail("@b.co")
  {
    assert PlainBetween("a@b.co", 0, 1) && PlainBetween("a@b.co", 2, 3) && PlainBetween("a@b.co", 4, 6);
    assert "a@b.co"[1] == '@' && "a@b.co"[3] == '.';
  }
}

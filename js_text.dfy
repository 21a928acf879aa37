/**
 * The JavaScript string and number primitives the application code relies on, over Dafny
 * strings (sequences of Unicode scalar values): the `\s` class and `String.prototype.trim`,
 * `toLowerCase` / `toUpperCase`, `includes`, truthiness of optional fields, decimal
 * rendering of integers in template strings, and the UTF-16 `length`.
 */
module JsText {
  import opened Wrappers

  // ---------------------------------------------------------------------------------------
  // Character classes
  // ---------------------------------------------------------------------------------------

  /** The characters of the regular-expression class `\s`, which are also exactly the
      characters `trim` removes (WhiteSpace and LineTerminator of ECMA-262). */
  predicate IsSpace(c: char) {
    c in SpaceChars
  }

  const SpaceChars: set<char> := {
    '\t', '\n', '\U{000B}', '\U{000C}', '\r', ' ', '\U{00A0}', '\U{1680}',
    '\U{2000}', '\U{2001}', '\U{2002}', '\U{2003}', '\U{2004}', '\U{2005}', '\U{2006}',
    '\U{2007}', '\U{2008}', '\U{2009}', '\U{200A}', '\U{2028}', '\U{2029}', '\U{202F}',
    '\U{205F}', '\U{3000}', '\U{FEFF}'
  }

  predicate IsAsciiUpper(c: char) { 'A' <= c <= 'Z' }
  predicate IsAsciiLower(c: char) { 'a' <= c <= 'z' }
  predicate IsAsciiDigit(c: char) { '0' <= c <= '9' }
  predicate IsAsciiAlnum(c: char) { IsAsciiUpper(c) || IsAsciiLower(c) || IsAsciiDigit(c) }

  /** Letters and digits are not white space. */
  lemma {:induction false} AlnumIsNotSpace(c: char)
    requires IsAsciiAlnum(c)
    ensures !IsSpace(c)
  {
  }

  predicate AllDigits(s: string) { forall i :: 0 <= i < |s| ==> IsAsciiDigit(s[i]) }

  /** Whether `c` occurs in `s`. */
  predicate HasChar(s: string, c: char) { exists i :: 0 <= i < |s| && s[i] == c }

  // ---------------------------------------------------------------------------------------
  // trim
  // ---------------------------------------------------------------------------------------

  function TrimStart(s: string): string {
    if s != [] && IsSpace(s[0]) then TrimStart(s[1..]) else s
  }

  function TrimEnd(s: string): string {
    if s != [] && IsSpace(s[|s| - 1]) then TrimEnd(s[..|s| - 1]) else s
  }

  /** `s.trim()`. */
  function Trim(s: string): string {
    TrimEnd(TrimStart(s))
  }

  /** `r` is the infix of `s` starting at `i`, and everything around it is space. */
  predicate CutAt(s: string, r: string, i: int) {
    0 <= i <= |s| - |r| && r == s[i..i + |r|] &&
    (forall k :: 0 <= k < i ==> IsSpace(s[k])) &&
    (forall k :: i + |r| <= k < |s| ==> IsSpace(s[k]))
  }

  lemma {:induction false} TrimStartSpec(s: string)
    ensures var r := TrimStart(s);
      |r| <= |s| && r == s[|s| - |r|..] && (r == [] || !IsSpace(r[0])) &&
      forall i :: 0 <= i < |s| - |r| ==> IsSpace(s[i])
  {
    if s != [] && IsSpace(s[0]) {
      var u := s[1..];
      TrimStartSpec(u);
      var r := TrimStart(u);
      assert TrimStart(s) == r;
      assert u[|u| - |r|..] == s[|s| - |r|..];
      forall i | 0 <= i < |s| - |r|
        ensures IsSpace(s[i])
      {
        if i > 0 {
          assert s[i] == u[i - 1];
        }
      }
    }
  }

  lemma {:induction false} TrimEndSpec(s: string)
    ensures var r := TrimEnd(s);
      |r| <= |s| && r == s[..|r|] && (r == [] || !IsSpace(r[|r| - 1])) &&
      forall i :: |r| <= i < |s| ==> IsSpace(s[i])
  {
    if s != [] && IsSpace(s[|s| - 1]) {
      var u := s[..|s| - 1];
      TrimEndSpec(u);
      var r := TrimEnd(u);
      assert TrimEnd(s) == r;
      assert u[..|r|] == s[..|r|];
      forall i | |r| <= i < |s|
        ensures IsSpace(s[i])
      {
        if i < |u| {
          assert s[i] == u[i];
        }
      }
    }
  }

  /** The trimmed string is the longest infix that neither starts nor ends with a space:
      everything cut away on either side is space. */
  lemma {:induction false} TrimSpec(s: string)
    ensures var r := Trim(s); r == [] || (!IsSpace(r[0]) && !IsSpace(r[|r| - 1]))
    ensures exists i :: CutAt(s, Trim(s), i)
  {
    var t := TrimStart(s);
    TrimStartSpec(s);
    TrimEndSpec(t);
    var r := TrimEnd(t);
    var i := |s| - |t|;
    assert r != [] ==> r[0] == t[0];
    assert r == s[i..i + |r|];
    forall k | i + |r| <= k < |s|
      ensures IsSpace(s[k])
    {
      assert s[k] == t[k - i];
    }
    assert CutAt(s, r, i);
  }

  /** `!s.trim()`: the field is empty or only whitespace. */
  predicate IsBlank(s: string) { Trim(s) == [] }

  lemma {:induction false} BlankIffAllSpace(s: string)
    ensures IsBlank(s) <==> forall k :: 0 <= k < |s| ==> IsSpace(s[k])
  {
    TrimSpec(s);
    if IsBlank(s) {
      var i :| CutAt(s, Trim(s), i);
    } else {
      var r := Trim(s);
      var i :| CutAt(s, r, i);
      assert s[i] == r[0] && !IsSpace(s[i]);
    }
  }

  /** Trimming a string that neither starts nor ends with a space changes nothing. */
  lemma {:induction false} TrimOfTrimmed(s: string)
    requires s == [] || (!IsSpace(s[0]) && !IsSpace(s[|s| - 1]))
    ensures Trim(s) == s
  {
    assert TrimStart(s) == s;
    assert TrimEnd(s) == s;
  }

  // ---------------------------------------------------------------------------------------
  // Case mapping
  // ---------------------------------------------------------------------------------------

  /** `toLowerCase` on one character, for ASCII, Latin-1 and every Latin letter a
      Vietnamese text uses (Latin Extended-A, O/U with horn, Latin Extended Additional).
      The one exception is U+0130, which is left unchanged here: JavaScript lowers it to
      two code units, `i` and U+0307. */
  function ToLowerChar(c: char): (r: char)
    ensures IsAsciiUpper(c) ==> r == (c as int + 32) as char
    ensures c as int < 128 && !IsAsciiUpper(c) ==> r == c
  {
    if IsAsciiUpper(c) then (c as int + 32) as char
    else if ('\U{00C0}' <= c <= '\U{00DE}') && c != '\U{00D7}' then (c as int + 32) as char
    else if (('\U{0100}' <= c <= '\U{012F}') || ('\U{0132}' <= c <= '\U{0137}') ||
             ('\U{014A}' <= c <= '\U{0177}') || ('\U{1E00}' <= c <= '\U{1E95}') ||
             ('\U{1EA0}' <= c <= '\U{1EFF}')) && c as int % 2 == 0
    then (c as int + 1) as char
    else if (('\U{0139}' <= c <= '\U{0148}') || ('\U{0179}' <= c <= '\U{017E}')) &&
            c as int % 2 == 1
    then (c as int + 1) as char
    else if c == '\U{0178}' then '\U{00FF}'
    else if c == '\U{01A0}' || c == '\U{01AF}' then (c as int + 1) as char
    else c
  }

  function ToLower(s: string): (r: string)
    ensures |r| == |s| && forall i :: 0 <= i < |s| ==> r[i] == ToLowerChar(s[i])
  {
    seq(|s|, i requires 0 <= i < |s| => ToLowerChar(s[i]))
  }

  /** `toUpperCase` on ASCII letters (the model's inputs to it are ASCII). */
  function AsciiUpperChar(c: char): (r: char)
    ensures IsAsciiLower(c) ==> IsAsciiUpper(r)
    ensures !IsAsciiLower(c) ==> r == c
  {
    if IsAsciiLower(c) then (c as int - 32) as char else c
  }

  function AsciiUpper(s: string): (r: string)
    ensures |r| == |s| && forall i :: 0 <= i < |s| ==> r[i] == AsciiUpperChar(s[i])
  {
    seq(|s|, i requires 0 <= i < |s| => AsciiUpperChar(s[i]))
  }

  // ---------------------------------------------------------------------------------------
  // includes
  // ---------------------------------------------------------------------------------------

  /** `text.includes(pat)`. */
  predicate Contains(text: string, pat: string) {
    exists k :: 0 <= k <= |text| - |pat| && OccursAt(text, pat, k)
  }

  /** `pat` occurs in `text` at position `k`. */
  predicate OccursAt(text: string, pat: string, k: int) {
    0 <= k <= |text| - |pat| && text[k..k + |pat|] == pat
  }

  lemma {:induction false} ContainsSelfAndEmpty(text: string)
    ensures Contains(text, text) && Contains(text, "")
  {
    assert OccursAt(text, text, 0);
    assert OccursAt(text, "", 0);
  }

  // ---------------------------------------------------------------------------------------
  // Truthiness of optional JSON fields
  // ---------------------------------------------------------------------------------------

  /** A string field is truthy when present and non-empty. */
  predicate Truthy(o: Option<string>) { o.Some? && o.value != "" }

  /** A number field is truthy when present and non-zero. */
  predicate TruthyNum(o: Option<int>) { o.Some? && o.value != 0 }

  /** `a || d` on an optional number. */
  function OrNum(a: Option<int>, d: int): (r: int)
    ensures TruthyNum(a) ==> r == a.value
    ensures !TruthyNum(a) ==> r == d
  {
    if TruthyNum(a) then a.value else d
  }

  // ---------------------------------------------------------------------------------------
  // Integers in template strings
  // ---------------------------------------------------------------------------------------

  function DigitChar(d: nat): (c: char)
    requires d < 10
    ensures IsAsciiDigit(c) && c as int - '0' as int == d
  {
    ('0' as int + d) as char
  }

  /** `${n}` for a non-negative integer: its decimal digits, without leading zeros. */
  function NatToString(n: nat): (r: string)
    ensures r != [] && AllDigits(r)
    ensures |r| > 1 ==> r[0] != '0'
  {
    if n < 10 then [DigitChar(n)] else NatToString(n / 10) + [DigitChar(n % 10)]
  }

  /** The value of a string of decimal digits (the digits part of `parseInt` / `Number`). */
  function DigitsValue(s: string): nat
    requires AllDigits(s)
  {
    if s == [] then 0 else DigitsValue(s[..|s| - 1]) * 10 + (s[|s| - 1] as int - '0' as int)
  }

  /** Reading back the rendering of `n` gives `n`. */
  lemma {:induction false} NatToStringRoundTrip(n: nat)
    ensures DigitsValue(NatToString(n)) == n
  {
    if n >= 10 {
      var r := NatToString(n);
      assert r[..|r| - 1] == NatToString(n / 10);
      NatToStringRoundTrip(n / 10);
    }
  }

  /** Different numbers render differently. */
  lemma {:induction false} NatToStringInjective(m: nat, n: nat)
    requires NatToString(m) == NatToString(n)
    ensures m == n
  {
    NatToStringRoundTrip(m);
    NatToStringRoundTrip(n);
  }

  function Pow10(n: nat): (r: nat)
    ensures r >= 1
  {
    if n == 0 then 1 else 10 * Pow10(n - 1)
  }

  /** Appending digits shifts the value left by their number. */
  lemma {:induction false} DigitsValueConcat(a: string, b: string)
    requires AllDigits(a) && AllDigits(b)
    ensures AllDigits(a + b)
    ensures DigitsValue(a + b) == DigitsValue(a) * Pow10(|b|) + DigitsValue(b)
  {
    if b != [] {
      var b', c := b[..|b| - 1], b[|b| - 1];
      DigitsValueConcat(a, b');
      assert a + b == (a + b') + [c];
      assert b == b' + [c];
      DigitsValueSnoc(a + b', c);
      DigitsValueSnoc(b', c);
      ShiftDigit(DigitsValue(a), Pow10(|b'|), DigitsValue(b'), c as int - '0' as int);
    } else {
      assert a + b == a;
    }
  }

  /** Appending one digit multiplies by ten and adds it. */
  lemma {:induction false} DigitsValueSnoc(s: string, c: char)
    requires AllDigits(s) && IsAsciiDigit(c)
    ensures AllDigits(s + [c])
    ensures DigitsValue(s + [c]) == DigitsValue(s) * 10 + (c as int - '0' as int)
  {
    assert (s + [c])[..|s|] == s;
  }

  lemma {:induction false} ShiftDigit(x: int, p: int, y: int, d: int)
    ensures (x * p + y) * 10 + d == x * (10 * p) + (y * 10 + d)
  {
  }

  // ---------------------------------------------------------------------------------------
  // String length in UTF-16 code units
  // ---------------------------------------------------------------------------------------

  /** `s.length`: characters outside the Basic Multilingual Plane count twice. */
  function Utf16Length(s: string): (n: nat)
    ensures |s| <= n <= 2 * |s|
  {
    if s == [] then 0
    else Utf16Length(s[..|s| - 1]) + (if s[|s| - 1] as int >= 0x10000 then 2 else 1)
  }

  // ---------------------------------------------------------------------------------------
  // split / join on one separator character
  // ---------------------------------------------------------------------------------------

  function CountChar(s: string, c: char): (n: nat)
    ensures n <= |s|
    ensures n == 0 <==> !HasChar(s, c)
  {
    if s == [] then 0
    else
      assert forall i :: 1 <= i < |s| ==> s[i] == s[1..][i - 1];
      assert HasChar(s[1..], c) ==> HasChar(s, c);
      (if s[0] == c then 1 else 0) + CountChar(s[1..], c)
  }

  lemma {:induction false} CountCharConcat(a: string, b: string, c: char)
    ensures CountChar(a + b, c) == CountChar(a, c) + CountChar(b, c)
  {
    if a != [] {
      assert (a + b)[1..] == a[1..] + b;
      CountCharConcat(a[1..], b, c);
    } else {
      assert a + b == b;
    }
  }

  /** Counting `c` in a string cut around one position. */
  lemma {:induction false} CountAround(s: string, i: int, c: char)
    requires 0 <= i < |s|
    ensures CountChar(s, c) == CountChar(s[..i], c) + (if s[i] == c then 1 else 0) + CountChar(s[i + 1..], c)
  {
    assert s == s[..i] + [s[i]] + s[i + 1..];
    CountCharConcat(s[..i] + [s[i]], s[i + 1..], c);
    CountCharConcat(s[..i], [s[i]], c);
  }

  /** `parts.join(d)`. */
  function Join(parts: seq<string>, d: char): string {
    if |parts| <= 1 then (if parts == [] then [] else parts[0])
    else parts[0] + [d] + Join(parts[1..], d)
  }

  /** `s.split(d)`: the pieces between separators; one more piece than separators. */
  function Split(s: string, d: char): (r: seq<string>)
    ensures |r| == CountChar(s, d) + 1
    ensures forall i :: 0 <= i < |r| ==> !HasChar(r[i], d)
  {
    if s == [] then [[]]
    else
      var rest := Split(s[1..], d);
      if s[0] == d then [[]] + rest
      else
        assert forall k :: 1 <= k < |[s[0]] + rest[0]| ==> ([s[0]] + rest[0])[k] == rest[0][k - 1];
        [[s[0]] + rest[0]] + rest[1..]
  }

  /** Joining the pieces of a split gives back the string. */
  lemma {:induction false} JoinSplit(s: string, d: char)
    ensures Join(Split(s, d), d) == s
  {
    if s != [] {
      JoinSplit(s[1..], d);
      var rest := Split(s[1..], d);
      if s[0] != d {
        JoinGrowsHead(s[0], rest, d);
      } else {
        assert Join([[]] + rest, d) == [] + [d] + Join(rest, d);
      }
      assert s == [s[0]] + s[1..];
    }
  }

  /** Prefixing the first piece prefixes the join. */
  lemma {:induction false} JoinGrowsHead(c: char, parts: seq<string>, d: char)
    requires parts != []
    ensures Join([[c] + parts[0]] + parts[1..], d) == [c] + Join(parts, d)
  {
    var r := [[c] + parts[0]] + parts[1..];
    assert r[0] == [c] + parts[0] && r[1..] == parts[1..];
  }

  /** Splitting a join of separator-free pieces gives back the pieces. */
  lemma {:induction false} SplitJoin(parts: seq<string>, d: char)
    requires |parts| >= 1
    requires forall i :: 0 <= i < |parts| ==> !HasChar(parts[i], d)
    ensures Split(Join(parts, d), d) == parts
  {
    if |parts| == 1 {
      SplitNoSeparator(parts[0], d);
    } else {
      SplitJoin(parts[1..], d);
      SplitAfterPiece(parts[0], Join(parts[1..], d), d);
      assert parts == [parts[0]] + parts[1..];
    }
  }

  lemma {:induction false} SplitNoSeparator(s: string, d: char)
    requires !HasChar(s, d)
    ensures Split(s, d) == [s]
  {
    if s != [] {
      SplitNoSeparator(s[1..], d);
      assert s[0] != d;
      assert s == [s[0]] + s[1..];
    }
  }

  lemma {:induction false} SplitAfterPiece(a: string, b: string, d: char)
    requires !HasChar(a, d)
    ensures Split(a + [d] + b, d) == [a] + Split(b, d)
  {
    if a == [] {
      assert [d] + b == [d] + b;
      assert ([d] + b)[1..] == b;
    } else {
      SplitAfterPiece(a[1..], b, d);
      var s := a + [d] + b;
      assert s[0] == a[0] && a[0] != d;
      assert s[1..] == a[1..] + [d] + b;
      assert a == [a[0]] + a[1..];
    }
  }

  // ---------------------------------------------------------------------------------------
  // parseInt
  // ---------------------------------------------------------------------------------------

  /** The longest prefix of `s` made of decimal digits. */
  function DigitPrefix(s: string): (r: string)
    ensures AllDigits(r) && |r| <= |s| && r == s[..|r|]
    ensures |r| < |s| ==> !IsAsciiDigit(s[|r|])
  {
    if s != [] && IsAsciiDigit(s[0]) then [s[0]] + DigitPrefix(s[1..]) else []
  }

  predicate IsHexDigitChar(c: char) { IsAsciiDigit(c) || 'a' <= c <= 'f' || 'A' <= c <= 'F' }

  function HexDigitValue(c: char): (v: nat)
    requires IsHexDigitChar(c)
    ensures v < 16
  {
    if IsAsciiDigit(c) then c as int - '0' as int
    else if 'a' <= c <= 'f' then c as int - 'a' as int + 10
    else c as int - 'A' as int + 10
  }

  /** The longest prefix of `s` made of hexadecimal digits. */
  function HexPrefix(s: string): (r: string)
    ensures |r| <= |s| && forall i :: 0 <= i < |r| ==> r[i] == s[i] && IsHexDigitChar(r[i])
  {
    if s != [] && IsHexDigitChar(s[0]) then [s[0]] + HexPrefix(s[1..]) else []
  }

  function HexDigitsValue(s: string): nat
    requires forall i :: 0 <= i < |s| ==> IsHexDigitChar(s[i])
  {
    if s == [] then 0 else HexDigitsValue(s[..|s| - 1]) * 16 + HexDigitValue(s[|s| - 1])
  }

  /** `parseInt(s)` without a radix, for results that are exact integers: leading white
      space, an optional sign, then hexadecimal digits after "0x" or "0X" and decimal digits
      otherwise, as many as there are; `None` (NaN) when there are none. */
  function ParseInt(s: string): (r: Option<int>)
  {
    var t := TrimStart(s);
    var negative := t != [] && t[0] == '-';
    var u := if t != [] && (t[0] == '-' || t[0] == '+') then t[1..] else t;
    var magnitude: Option<int> :=
      if |u| >= 2 && u[0] == '0' && (u[1] == 'x' || u[1] == 'X') then
        var h := HexPrefix(u[2..]);
        if h == [] then None else Some(HexDigitsValue(h))
      else
        var d := DigitPrefix(u);
        if d == [] then None else Some(DigitsValue(d));
    match magnitude
    case None => None
    case Some(m) => Some(if negative then -m else m)
  }

  lemma {:induction false} DigitPrefixOfDigits(d: string, rest: string)
    requires AllDigits(d)
    requires rest == [] || !IsAsciiDigit(rest[0])
    ensures DigitPrefix(d + rest) == d
  {
    if d == [] {
      assert d + rest == rest;
    } else {
      assert (d + rest)[1..] == d[1..] + rest;
      DigitPrefixOfDigits(d[1..], rest);
    }
  }

  /** `parseInt` reads back the decimal rendering of a number, with or without a minus
      sign, and ignores what follows the digits when it is not a digit and not the 'x'
      of a hexadecimal prefix. */
  lemma {:induction false} ParseIntOfNat(n: nat, rest: string)
    requires rest == [] || (!IsAsciiDigit(rest[0]) && rest[0] != 'x' && rest[0] != 'X')
    ensures ParseInt(NatToString(n) + rest) == Some(n)
    ensures ParseInt("-" + NatToString(n) + rest) == Some(-(n as int))
  {
    var d := NatToString(n);
    DigitPrefixOfDigits(d, rest);
    NatToStringRoundTrip(n);
    assert !IsSpace(d[0]);
    assert TrimStart(d + rest) == d + rest;
    assert (d + rest)[0] == d[0];
    var m := "-" + d + rest;
    assert TrimStart(m) == m;
    assert m[1..] == d + rest;
  }

  /** Text without a digit after the optional sign is NaN. */
  lemma {:induction false} ParseIntNaN(s: string)
    requires s == [] || (!IsAsciiDigit(s[0]) && !IsSpace(s[0]) && s[0] != '-' && s[0] != '+')
    ensures ParseInt(s) == None
  {
  }
}

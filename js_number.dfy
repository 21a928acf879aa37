/**
 * `Number(text)` (and `isNaN(text)`, which applies it) for the decimal numerals a form
 * field holds: surrounding white space is ignored, an empty or blank text is 0, an optional
 * sign is followed by digits with at most one decimal point. `None` is NaN.
 */
module JsNumber {
  import opened Wrappers
  import opened JsText

  /** The value of an unsigned decimal numeral such as `12`, `12.5`, `12.` or `.5`. */
  function DecimalValue(b: string): (r: Option<real>)
    ensures r.Some? ==> r.value >= 0.0
  {
    var parts := Split(b, '.');
    if |parts| == 1 then
      if b != "" && AllDigits(b) then Some(DigitsValue(b) as real) else None
    else if |parts| == 2 && AllDigits(parts[0]) && AllDigits(parts[1]) && |parts[0]| + |parts[1]| > 0 then
      Some(DigitsValue(parts[0]) as real + DigitsValue(parts[1]) as real / Pow10(|parts[1]|) as real)
    else None
  }

  /** `Number(s)` on a string. */
  function NumberOf(s: string): (r: Option<real>)
    ensures IsBlank(s) ==> r == Some(0.0)
  {
    var t := Trim(s);
    if t == "" then Some(0.0)
    else if t[0] == '-' then
      match DecimalValue(t[1..])
      case None => None
      case Some(v) => Some(-v)
    else if t[0] == '+' then DecimalValue(t[1..])
    else DecimalValue(t)
  }

  /** The rendering of a natural number reads back as that number. */
  lemma {:induction false} NumberOfNat(n: nat)
    ensures NumberOf(NatToString(n)) == Some(n as real)
  {
    var s := NatToString(n);
    assert !IsSpace(s[0]) && !IsSpace(s[|s| - 1]);
    TrimOfTrimmed(s);
    assert !HasChar(s, '.');
    SplitNoSeparator(s, '.');
    NatToStringRoundTrip(n);
  }

  /** A positive number is written without a minus sign. */
  lemma {:induction false} PositiveHasNoMinus(s: string)
    requires NumberOf(s).Some? && NumberOf(s).value > 0.0
    ensures Trim(s) != "" && Trim(s)[0] != '-'
  {
  }

  /** A JavaScript number: a finite value, an infinity, or NaN. */
  datatype Double = Finite(v: real) | PosInf | NegInf | NaN

  /** `a / b`: dividing by zero gives an infinity of the sign of `a`, and 0 / 0 is NaN. */
  function Divide(a: real, b: real): (r: Double)
    ensures b != 0.0 ==> r == Finite(a / b)
    ensures r == NaN <==> a == 0.0 && b == 0.0
  {
    if b != 0.0 then Finite(a / b)
    else if a > 0.0 then PosInf
    else if a < 0.0 then NegInf
    else NaN
  }

  /** `x * k` for a positive constant `k`. */
  function Scale(x: Double, k: real): (r: Double)
    requires k > 0.0
    ensures x.Finite? ==> r == Finite(x.v * k)
    ensures !x.Finite? ==> r == x
  {
    if x.Finite? then Finite(x.v * k) else x
  }

  /** `Math.min(x, m)` for a finite `m`: NaN stays NaN. */
  function MinWith(x: Double, m: real): (r: Double)
    ensures r.Finite? ==> r.v <= m
    ensures r != PosInf
    ensures r == NaN <==> x == NaN
  {
    match x
    case Finite(v) => Finite(if v < m then v else m)
    case PosInf => Finite(m)
    case NegInf => NegInf
    case NaN => NaN
  }
}

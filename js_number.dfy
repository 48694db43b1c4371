/** The conversion `Number(string)` of ECMAScript (section 7.1.4.1.1, StringToNumber), which
    the sidebar sort applies to the first word of an entry's title. Values are exact reals:
    the rounding of a decimal literal to the nearest IEEE double is not modelled. */
module JsNumber {
  import opened Wrappers
  import opened JsString

  datatype Number = NaN | NegInfinity | Finite(value: real) | PosInfinity

  /** `a <= b` for two values neither of which is NaN. */
  predicate Le(a: Number, b: Number) {
    a.NegInfinity? || b.PosInfinity? || (a.Finite? && b.Finite? && a.value <= b.value)
  }

  /** JavaScript's `a > b`: false whenever either side is NaN. */
  predicate Gt(a: Number, b: Number) {
    !a.NaN? && !b.NaN? && !Le(a, b)
  }

  lemma LeTotalOrder(a: Number, b: Number, c: Number)
    requires !a.NaN? && !b.NaN? && !c.NaN?
    ensures Le(a, a)
    ensures Le(a, b) || Le(b, a)
    ensures Le(a, b) && Le(b, a) ==> a == b
    ensures Le(a, b) && Le(b, c) ==> Le(a, c)
    ensures Gt(a, b) <==> !Le(a, b)
  {
  }

  function Pow10(e: nat): (r: nat)
    ensures r >= 1
  {
    if e == 0 then 1 else 10 * Pow10(e - 1)
  }

  /** m * 10^e */
  function Scale(m: real, e: int): real {
    if e >= 0 then m * Pow10(e) as real else m / Pow10(-e) as real
  }

  /** The value of one hexadecimal digit, or -1 for any other character. */
  function DigitVal(c: char): int {
    if '0' <= c <= '9' then c as int - '0' as int
    else if 'a' <= c <= 'f' then c as int - 'a' as int + 10
    else if 'A' <= c <= 'F' then c as int - 'A' as int + 10
    else -1
  }

  predicate AllRadix(s: string, radix: nat) {
    forall i :: 0 <= i < |s| ==> 0 <= DigitVal(s[i]) < radix
  }

  function RadixValue(s: string, radix: nat): nat
    requires AllRadix(s, radix)
  {
    if |s| == 0 then 0 else radix * RadixValue(s[..|s| - 1], radix) + DigitVal(s[|s| - 1])
  }

  predicate AllDigits(s: string) {
    forall i :: 0 <= i < |s| ==> IsDigit(s[i])
  }

  /** The first index holding `c` or `d`. */
  function IndexOf(s: string, c: char, d: char): (r: Option<nat>)
    ensures r.Some? ==> r.value < |s| && (s[r.value] == c || s[r.value] == d)
    ensures r.Some? ==> forall i :: 0 <= i < r.value ==> s[i] != c && s[i] != d
    ensures r.None? ==> forall i :: 0 <= i < |s| ==> s[i] != c && s[i] != d
  {
    if |s| == 0 then None
    else if s[0] == c || s[0] == d then Some(0)
    else
      var r := IndexOf(s[1..], c, d);
      if r.Some? then Some(r.value + 1) else None
  }

  /** DecimalDigits, optionally followed by `.` and more digits, with at least one digit. */
  function Mantissa(m: string): Option<real> {
    var dot := IndexOf(m, '.', '.');
    if dot.None? then
      if |m| > 0 && AllDigits(m) then Some(DecimalValue(m) as real) else None
    else
      var whole, fraction := m[..dot.value], m[dot.value + 1..];
      if |whole| + |fraction| > 0 && AllDigits(whole) && AllDigits(fraction) then
        Some(DecimalValue(whole) as real + DecimalValue(fraction) as real / Pow10(|fraction|) as real)
      else None
  }

  /** SignedInteger of an ExponentPart. */
  function Exponent(x: string): Option<int> {
    var neg := |x| > 0 && x[0] == '-';
    var digits := if |x| > 0 && (x[0] == '+' || x[0] == '-') then x[1..] else x;
    if |digits| > 0 && AllDigits(digits) then
      var v: int := DecimalValue(digits);
      Some(if neg then -v else v)
    else None
  }

  /** StrUnsignedDecimalLiteral without `Infinity`. */
  function UnsignedDecimal(u: string): Option<real> {
    var e := IndexOf(u, 'e', 'E');
    var m := if e.Some? then u[..e.value] else u;
    var x := if e.Some? then Exponent(u[e.value + 1..]) else Some(0);
    var mv := Mantissa(m);
    if mv.Some? && x.Some? then Some(Scale(mv.value, x.value)) else None
  }

  /** The radix of a `0x`, `0o` or `0b` prefix, or 0 for none. */
  function RadixOf(t: string): nat {
    if |t| < 2 || t[0] != '0' then 0
    else if t[1] == 'x' || t[1] == 'X' then 16
    else if t[1] == 'o' || t[1] == 'O' then 8
    else if t[1] == 'b' || t[1] == 'B' then 2
    else 0
  }

  /** A `0x`, `0o` or `0b` literal: at least one digit, all of them in the radix. */
  function RadixLiteral(t: string): Number
    requires RadixOf(t) != 0
  {
    var digits := t[2..];
    if |digits| > 0 && AllRadix(digits, RadixOf(t)) then Finite(RadixValue(digits, RadixOf(t)) as real)
    else NaN
  }

  /** An optionally signed `Infinity` or decimal literal. */
  function SignedLiteral(t: string): Number
    requires t != ""
  {
    var neg := t[0] == '-';
    var u := if t[0] == '+' || t[0] == '-' then t[1..] else t;
    if u == "Infinity" then (if neg then NegInfinity else PosInfinity)
    else
      var v := UnsignedDecimal(u);
      if v.None? then NaN else Finite(if neg then -v.value else v.value)
  }

  /** Number(s): surrounding white space is ignored and the empty string is 0; a non-decimal
      integer takes no sign; anything that is not a numeric literal is NaN. */
  function ToNumber(s: string): Number {
    var t := Trim(s);
    if t == "" then Finite(0.0)
    else if RadixOf(t) != 0 then RadixLiteral(t)
    else SignedLiteral(t)
  }

  lemma TrimKeeps(s: string)
    requires s != "" && !IsWhitespace(s[0]) && !IsWhitespace(s[|s| - 1])
    ensures Trim(s) == s
  {
  }

  /** A string of decimal digits, leading zeros included, is read as its decimal value. */
  lemma DigitsToNumber(s: string)
    requires |s| > 0 && AllDigits(s)
    ensures ToNumber(s) == Finite(DecimalValue(s) as real)
  {
    assert IsDigit(s[0]) && IsDigit(s[|s| - 1]);
    TrimKeeps(s);
    assert RadixOf(s) == 0 by {
      if |s| >= 2 {
        assert IsDigit(s[1]);
      }
    }
    DigitsSigned(s);
  }

  lemma DigitsSigned(s: string)
    requires |s| > 0 && AllDigits(s)
    ensures SignedLiteral(s) == Finite(DecimalValue(s) as real)
  {
    assert IsDigit(s[0]);
    assert s != "Infinity" by {
      assert "Infinity"[0] == 'I';
    }
    DigitsUnsigned(s);
  }

  lemma DigitsUnsigned(s: string)
    requires |s| > 0 && AllDigits(s)
    ensures UnsignedDecimal(s) == Some(DecimalValue(s) as real)
  {
    NoMarker(s, 'e', 'E');
    DigitsMantissa(s);
    ScaleZero(DecimalValue(s) as real);
  }

  lemma DigitsMantissa(s: string)
    requires |s| > 0 && AllDigits(s)
    ensures Mantissa(s) == Some(DecimalValue(s) as real)
  {
    NoMarker(s, '.', '.');
  }

  lemma ScaleZero(m: real)
    ensures Scale(m, 0) == m
  {
  }

  lemma NoMarker(s: string, c: char, d: char)
    requires AllDigits(s) && !IsDigit(c) && !IsDigit(d)
    ensures IndexOf(s, c, d).None?
  {
  }

  /** Number(String(n)) == n for every non-negative integer n. */
  lemma NatRoundTrip(n: nat)
    ensures ToNumber(NatToString(n)) == Finite(n as real)
  {
    NatToStringRoundTrip(n);
    DigitsToNumber(NatToString(n));
  }

  /** Every string made only of white space, the empty string included, converts to 0. */
  lemma BlankIsZero(s: string)
    requires IsBlank(s)
    ensures ToNumber(s) == Finite(0.0)
  {
    TrimEmptyIffBlank(s);
  }

  /** A word that is not a numeric literal gives NaN. */
  lemma WordIsNaN()
    ensures ToNumber("Intro").NaN?
  {
    TrimKeeps("Intro");
    assert IndexOf("Intro", 'e', 'E').None?;
    assert IndexOf("Intro", '.', '.').None?;
    assert !IsDigit("Intro"[0]);
    assert Mantissa("Intro").None?;
  }

  /** A second decimal point makes the literal invalid. */
  lemma TwoPointsIsNaN()
    ensures ToNumber("1.2.3").NaN?
  {
    TrimKeeps("1.2.3");
    assert IndexOf("1.2.3", 'e', 'E').None?;
    assert IndexOf("1.2.3", '.', '.') == Some(1);
    assert "1.2.3"[2..][1] == '.';
    assert Mantissa("1.2.3").None?;
  }

  /** A hexadecimal literal takes no sign. */
  lemma SignedHexIsNaN()
    ensures ToNumber("-0x10").NaN?
  {
    TrimKeeps("-0x10");
    assert "-0x10"[1..] == "0x10";
    assert IndexOf("0x10", 'e', 'E').None?;
    assert IndexOf("0x10", '.', '.').None?;
    assert !IsDigit("0x10"[1]);
    assert Mantissa("0x10").None?;
  }

  /** A hexadecimal literal is read in base 16. */
  lemma HexLiteral()
    ensures ToNumber("0x1F") == Finite(31.0)
  {
    TrimKeeps("0x1F");
    assert "0x1F"[2..] == "1F";
    assert RadixValue("1F", 16) == 31;
  }

  lemma NegativeInfinityLiteral()
    ensures ToNumber("-Infinity") == NegInfinity
  {
    TrimKeeps("-Infinity");
    assert "-Infinity"[1..] == "Infinity";
  }

  /** A decimal literal with a fraction and an exponent. */
  lemma ExponentLiteral()
    ensures ToNumber("1.5e1") == Finite(15.0)
  {
    TrimKeeps("1.5e1");
    assert IndexOf("1.5e1", 'e', 'E') == Some(3);
    assert "1.5e1"[..3] == "1.5" && "1.5e1"[4..] == "1";
    assert Mantissa("1.5") == Some(1.5);
    assert Exponent("1") == Some(1);
  }
}

/**
  The string handling the request resolution depends on: StringUtils.isBlank, case-insensitive
  enum-name matching, Integer.parseInt and the BigDecimal(String) constructor.
  Digits and case folding are those of ASCII.
*/
module Text {
  import opened Outcomes

  // ---------------------------------------------------------------------------------------
  // Blank strings

  /** Character.isWhitespace as of Java 9 (Unicode 8 and later): Unicode space, line and
      paragraph separators other than the non-breaking spaces, and the control characters
      U+0009-U+000D and U+001C-U+001F. U+180E is not a space separator from Unicode 6.3 on. */
  predicate IsJavaWhitespace(c: char) {
    || ('\t' <= c <= '\r')
    || ('\U{1C}' <= c <= '\U{1F}')
    || c == ' '
    || c == '\U{1680}'
    || ('\U{2000}' <= c <= '\U{2006}')
    || ('\U{2008}' <= c <= '\U{200A}')
    || c == '\U{2028}' || c == '\U{2029}'
    || c == '\U{205F}' || c == '\U{3000}'
  }

  /** StringUtils.isBlank: null, empty, or whitespace only. */
  predicate IsBlank(s: Option<string>) {
    s.None? || forall i :: 0 <= i < |s.value| ==> IsJavaWhitespace(s.value[i])
  }

  predicate IsNotBlank(s: Option<string>) {
    !IsBlank(s)
  }

  // ---------------------------------------------------------------------------------------
  // Case-insensitive comparison, as String.equalsIgnoreCase does it on ASCII text

  function AsciiUpper(c: char): char {
    if 'a' <= c <= 'z' then (c as int - 32) as char else c
  }

  predicate EqualsIgnoreCase(a: string, b: string) {
    |a| == |b| && forall i :: 0 <= i < |a| ==> AsciiUpper(a[i]) == AsciiUpper(b[i])
  }

  // ---------------------------------------------------------------------------------------
  // Decimal digits

  predicate IsDigit(c: char) {
    '0' <= c <= '9'
  }

  predicate AllDigits(s: string) {
    forall i :: 0 <= i < |s| ==> IsDigit(s[i])
  }

  function DigitValue(c: char): nat
    requires IsDigit(c)
  {
    c as int - '0' as int
  }

  function DigitChar(n: nat): (c: char)
    requires n < 10
    ensures IsDigit(c) && DigitValue(c) == n
  {
    ('0' as int + n) as char
  }

  /** The value of a string of decimal digits, most significant first. */
  function DigitsValue(s: string): nat
    requires AllDigits(s)
    decreases |s|
  {
    if s == [] then 0 else DigitsValue(s[..|s| - 1]) * 10 + DigitValue(s[|s| - 1])
  }

  /** Integer.toString of a non-negative number: its decimal digits without leading zeros. */
  function NatToString(n: nat): (s: string)
    ensures |s| > 0 && AllDigits(s)
    ensures s[0] == '0' ==> n == 0
    decreases n
  {
    if n < 10 then [DigitChar(n)] else NatToString(n / 10) + [DigitChar(n % 10)]
  }

  lemma {:induction false} NatToStringRoundTrip(n: nat)
    ensures DigitsValue(NatToString(n)) == n
    decreases n
  {
    if n >= 10 {
      NatToStringRoundTrip(n / 10);
      var s := NatToString(n);
      assert s[..|s| - 1] == NatToString(n / 10);
    }
  }

  /** Integer.toString */
  function IntToString(n: int): string {
    if n < 0 then "-" + NatToString(-n) else NatToString(n)
  }

  /** An optional sign followed by at least one digit, of any magnitude. */
  function ParseSigned(s: string): Option<int> {
    if |s| > 0 && (s[0] == '-' || s[0] == '+') then
      if |s| > 1 && AllDigits(s[1..]) then
        var v: int := DigitsValue(s[1..]);
        Some(if s[0] == '-' then -v else v)
      else None
    else if |s| > 0 && AllDigits(s) then Some(DigitsValue(s))
    else None
  }

  lemma ParseSignedRoundTrip(n: int)
    ensures ParseSigned(IntToString(n)) == Some(n)
  {
    var digits := NatToString(if n < 0 then -n else n);
    NatToStringRoundTrip(if n < 0 then -n else n);
    if n < 0 {
      assert IntToString(n)[1..] == digits;
    }
  }

  // ---------------------------------------------------------------------------------------
  // Integer.parseInt

  newtype Int32 = x: int | -0x8000_0000 <= x < 0x8000_0000

  /** Integer.parseInt: None stands for the NumberFormatException thrown for null, for a string
      that is not an optional sign followed by digits, and for a value outside the int range. */
  function ParseInt(s: Option<string>): (r: Option<Int32>)
    ensures r.Some? <==>
      s.Some? && ParseSigned(s.value).Some? && -0x8000_0000 <= ParseSigned(s.value).value < 0x8000_0000
    ensures r.Some? ==> r.value as int == ParseSigned(s.value).value
  {
    match s
    case None => None
    case Some(t) =>
      match ParseSigned(t)
      case Some(v) => if -0x8000_0000 <= v < 0x8000_0000 then Some(v as Int32) else None
      case None => None
  }

  /** parseInt accepts exactly what Integer.toString produces for every int. */
  lemma ParseIntRoundTrip(n: Int32)
    ensures ParseInt(Some(IntToString(n as int))) == Some(n)
  {
    ParseSignedRoundTrip(n as int);
  }

  /** parseInt does no blank check: null, empty and whitespace-only strings all throw. */
  lemma ParseIntRejectsBlank(s: Option<string>)
    requires IsBlank(s)
    ensures ParseInt(s) == None
  {
    if s.Some? && |s.value| > 0 {
      assert IsJavaWhitespace(s.value[0]);
      assert !AllDigits(s.value);
    }
  }

  // ---------------------------------------------------------------------------------------
  // new BigDecimal(String)

  /** A BigDecimal: unscaled * 10^(-scale). */
  datatype Decimal = Decimal(unscaled: int, scale: int)

  /** The index of the first occurrence of c1 or c2 in s, or |s| when there is none. */
  function FirstIndex(s: string, c1: char, c2: char): (i: nat)
    ensures i <= |s|
  {
    if s == [] || s[0] == c1 || s[0] == c2 then 0 else 1 + FirstIndex(s[1..], c1, c2)
  }

  /** The BigDecimal(String) grammar: an optional sign, a significand of digits with at most one
      decimal point and at least one digit, and an optional exponent 'e' or 'E' followed by an
      optional sign and digits. None stands for the NumberFormatException. */
  function ParseDecimal(s: string): Option<Decimal> {
    var negative := |s| > 0 && s[0] == '-';
    var body := if |s| > 0 && (s[0] == '-' || s[0] == '+') then s[1..] else s;
    match ParseUnsignedDecimal(body)
    case None => None
    case Some(parsed) =>
      var magnitude: int := parsed.0;
      Some(Decimal(if negative then -magnitude else magnitude, parsed.1))
  }

  /** The part of the grammar after the sign: the magnitude of the unscaled value and the scale. */
  function ParseUnsignedDecimal(body: string): Option<(nat, int)> {
    var e := FirstIndex(body, 'e', 'E');
    CombineParts(ParseSignificand(body[..e]), if e < |body| then ParseSigned(body[e + 1..]) else Some(0))
  }

  /** The magnitude and scale of a significand and an exponent that both parsed. */
  function CombineParts(significand: Option<(nat, nat)>, exponent: Option<int>): Option<(nat, int)> {
    if significand.Some? && exponent.Some? then
      Some((significand.value.0, significand.value.1 - exponent.value))
    else None
  }

  /** Digits with at most one decimal point and at least one digit: the value of all the digits
      and the number of digits after the point. */
  function ParseSignificand(significand: string): Option<(nat, nat)> {
    var p := FirstIndex(significand, '.', '.');
    var intPart := significand[..p];
    var fracPart := if p < |significand| then significand[p + 1..] else "";
    if AllDigits(intPart + fracPart) && |intPart| + |fracPart| > 0 then
      Some((DigitsValue(intPart + fracPart), |fracPart|))
    else None
  }

  /** A scientific rendering of a decimal: the unscaled value, 'E', and the exponent, which is
      minus the scale (123E-2 for 1.23). It is not BigDecimal.toString, which places a decimal
      point and adjusts the exponent; it shows that every decimal is the parse of some text. */
  function ScientificString(d: Decimal): string {
    SignedScientific(d.unscaled < 0, Magnitude(d.unscaled), d.scale)
  }

  /** The scientific rendering of the decimal with the given sign, unscaled magnitude and scale:
      the sign and digits of the unscaled value, 'E', and the exponent. */
  function SignedScientific(negative: bool, magnitude: nat, scale: int): string {
    if negative then "-" + ScientificBody(magnitude, scale) else ScientificBody(magnitude, scale)
  }

  /** The digits of the unscaled magnitude, 'E', and the exponent, which is minus the scale. */
  function ScientificBody(magnitude: nat, scale: int): string {
    NatToString(magnitude) + "E" + IntToString(-scale)
  }

  function Magnitude(n: int): nat {
    if n < 0 then -n else n
  }

  function Signed(negative: bool, magnitude: nat): int {
    if negative then -(magnitude as int) else magnitude
  }

  lemma {:induction false} FirstIndexSkips(a: string, b: string, c1: char, c2: char)
    requires forall i :: 0 <= i < |a| ==> a[i] != c1 && a[i] != c2
    ensures FirstIndex(a + b, c1, c2) == |a| + FirstIndex(b, c1, c2)
    decreases |a|
  {
    if a == [] {
      assert a + b == b;
    } else {
      assert (a + b)[1..] == a[1..] + b;
      FirstIndexSkips(a[1..], b, c1, c2);
    }
  }

  lemma SignificandOfDigits(digits: string)
    requires |digits| > 0 && AllDigits(digits)
    ensures ParseSignificand(digits) == Some((DigitsValue(digits), 0))
  {
    FirstIndexSkips(digits, "", '.', '.');
    assert digits + "" == digits;
    assert digits[..|digits|] == digits;
  }

  /** In digits + "E" + exponent the first exponent marker is the one after the digits. */
  lemma ExponentMarker(digits: string, exponent: string)
    requires AllDigits(digits)
    ensures FirstIndex(digits + "E" + exponent, 'e', 'E') == |digits|
  {
    assert digits + "E" + exponent == digits + ("E" + exponent);
    FirstIndexSkips(digits, "E" + exponent, 'e', 'E');
  }

  lemma UnsignedOfParts(digits: string, exponent: string, x: int)
    requires |digits| > 0 && AllDigits(digits)
    requires ParseSigned(exponent) == Some(x)
    ensures ParseUnsignedDecimal(digits + "E" + exponent) == Some((DigitsValue(digits), -x))
  {
    var body := digits + "E" + exponent;
    ExponentMarker(digits, exponent);
    assert body[..|digits|] == digits;
    assert body[|digits| + 1..] == exponent;
    SignificandOfDigits(digits);
    UnsignedOfPieces(digits, exponent, x, body);
  }

  /** UnsignedOfParts with the concatenation hidden behind the name body: the solver then
      reasons about the pieces without re-deriving them from the concatenation. */
  lemma UnsignedOfPieces(digits: string, exponent: string, x: int, body: string)
    requires |digits| > 0 && AllDigits(digits)
    requires body == digits + "E" + exponent
    requires FirstIndex(body, 'e', 'E') == |digits|
    requires ParseSignificand(body[..|digits|]) == Some((DigitsValue(digits), 0))
    requires ParseSigned(body[|digits| + 1..]) == Some(x)
    ensures ParseUnsignedDecimal(body) == Some((DigitsValue(digits), -x))
  {
    UnsignedOfSplit(body, |digits|, DigitsValue(digits), 0, x);
  }

  /** The grammar after the sign, split at a known first exponent marker; kept apart so that
      unfolding the grammar does not meet the facts about the text's pieces. */
  lemma UnsignedOfSplit(body: string, e: nat, magnitude: nat, fractionDigits: nat, x: int)
    requires e < |body| && FirstIndex(body, 'e', 'E') == e
    requires ParseSignificand(body[..e]) == Some((magnitude, fractionDigits))
    requires ParseSigned(body[e + 1..]) == Some(x)
    ensures ParseUnsignedDecimal(body) == Some((magnitude, fractionDigits - x))
  {
    SplitAt(body, e);
    CombineKnown(ParseSignificand(body[..e]), ParseSigned(body[e + 1..]), magnitude, fractionDigits, x);
  }

  /** CombineParts on two known parts; stated on its own so that the solver evaluates it on
      plain values rather than on the parses of slices. */
  lemma CombineKnown(significand: Option<(nat, nat)>, exponent: Option<int>, magnitude: nat, fractionDigits: nat, x: int)
    requires significand == Some((magnitude, fractionDigits)) && exponent == Some(x)
    ensures CombineParts(significand, exponent) == Some((magnitude, fractionDigits - x))
  {
  }

  /** The grammar after the sign splits the text at its first exponent marker. */
  lemma SplitAt(body: string, e: nat)
    requires e < |body| && FirstIndex(body, 'e', 'E') == e
    ensures ParseUnsignedDecimal(body) == CombineParts(ParseSignificand(body[..e]), ParseSigned(body[e + 1..]))
  {
  }

  lemma SignedOfParts(negative: bool, body: string, magnitude: nat, scale: int)
    requires |body| > 0 && IsDigit(body[0])
    requires ParseUnsignedDecimal(body) == Some((magnitude, scale))
    ensures ParseDecimal(if negative then "-" + body else body) ==
      Some(Decimal(Signed(negative, magnitude), scale))
  {
    if negative {
      assert ("-" + body)[1..] == body;
    }
  }

  /** The amount parse reaches every decimal: each is the parse of its scientific rendering. */
  lemma ParseDecimalRoundTrip(d: Decimal)
    ensures ParseDecimal(ScientificString(d)) == Some(d)
  {
    SignedOfRendering(d.unscaled < 0, Magnitude(d.unscaled), d.scale);
    assert Signed(d.unscaled < 0, Magnitude(d.unscaled)) == d.unscaled;
  }

  lemma SignedOfRendering(negative: bool, magnitude: nat, scale: int)
    ensures ParseDecimal(SignedScientific(negative, magnitude, scale)) ==
      Some(Decimal(Signed(negative, magnitude), scale))
  {
    UnsignedOfRendering(magnitude, scale);
    SignedOfParts(negative, ScientificBody(magnitude, scale), magnitude, scale);
  }

  lemma UnsignedOfRendering(magnitude: nat, scale: int)
    ensures |ScientificBody(magnitude, scale)| > 0 && IsDigit(ScientificBody(magnitude, scale)[0])
    ensures ParseUnsignedDecimal(ScientificBody(magnitude, scale)) == Some((magnitude, scale))
  {
    var digits := NatToString(magnitude);
    assert ScientificBody(magnitude, scale)[0] == digits[0];
    ParseSignedRoundTrip(-scale);
    NatToStringRoundTrip(magnitude);
    UnsignedOfParts(digits, IntToString(-scale), -scale);
  }
}
